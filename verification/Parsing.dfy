/** Every serialised query reads back as the statement its options describe. */
module Parsing {
  import opened Wrappers
  import opened Texts
  import opened Conditions
  import opened Queries

  lemma ReadsTable(table: string, rest: string)
    requires IsName(table)
    ensures ReadTable(PutTable(table, rest)) == Some((table, rest))
  {
    EatOwn("public.\"", table + ("\"" + rest));
    ReadOwnName(table, "\"" + rest);
    EatOwn("\"", rest);
  }

  lemma ReadsQualified(table: string, column: string, rest: string)
    requires IsName(table) && IsName(column) && !StartsName(rest)
    ensures ReadQualified(PutQualified(table, column, rest)) == Some((table, column, rest))
  {
    ReadsTable(table, "." + (column + rest));
    EatOwn(".", column + rest);
    ReadOwnName(column, rest);
  }

  /** A comma, a space or a bracket ends a name. */
  predicate Ends(rest: string) {
    rest != "" && (rest[0] == ',' || rest[0] == ' ' || rest[0] == ')')
  }

  lemma ReadsColumn(column: Column, joins: seq<Join>, table: Table, rest: string)
    requires Ends(rest)
    ensures ReadColumn(PutColumn(column, joins, table, rest)) == Some((ParsedColumnOf(column, joins, table), rest))
  {
    ReadOwnName(column, rest);
    if Localized(column, joins) {
      ReadsQualified(table, column, rest);
      EatOwn("public.\"", table + ("\"" + ("." + (column + rest))));
    } else {
      var s := column + rest;
      if |column| <= 6 {
        assert s[|column|] == rest[0];
        EatOther(s, "public.\"", |column|);
      } else {
        assert s[6] == column[6] && NameChar(column[6]);
        EatOther(s, "public.\"", 6);
      }
    }
  }

  lemma {:induction false} ReadsColumns(columns: seq<Column>, joins: seq<Join>, table: Table, rest: string)
    requires columns != [] && rest != "" && rest[0] == ' '
    ensures ReadColumns(PutColumns(columns, joins, table, rest)) == Some((ParsedColumns(columns, joins, table), rest))
    decreases |columns|
  {
    if |columns| == 1 {
      ReadsColumn(columns[0], joins, table, rest);
      EatOther(rest, ", ", 0);
      assert ParsedColumns(columns, joins, table) == [ParsedColumnOf(columns[0], joins, table)];
    } else {
      var others := PutColumns(columns[1..], joins, table, rest);
      ReadsColumn(columns[0], joins, table, ", " + others);
      EatOwn(", ", others);
      ReadsColumns(columns[1..], joins, table, rest);
      assert ParsedColumns(columns, joins, table)
             == [ParsedColumnOf(columns[0], joins, table)] + ParsedColumns(columns[1..], joins, table);
    }
  }

  lemma {:induction false} ReadsNames(names: seq<Column>, rest: string)
    requires names != [] && rest != "" && (rest[0] == ')' || rest[0] == ';')
    ensures ReadNames(PutNames(names, rest)) == (Names(names), rest)
    decreases |names|
  {
    if |names| == 1 {
      ReadOwnName(names[0], rest);
      EatOther(rest, ", ", 0);
      assert Names(names) == [names[0]];
    } else {
      var others := PutNames(names[1..], rest);
      ReadOwnName(names[0], ", " + others);
      EatOwn(", ", others);
      ReadsNames(names[1..], rest);
      assert Names(names) == [names[0]] + Names(names[1..]);
    }
  }

  lemma ReadsJoin(join: Join, table: Table, rest: string)
    requires !StartsName(rest)
    ensures ReadJoin(PutJoin(join, table, rest))
            == Some((ParsedJoinOf(join, table), rest))
    ensures StartsJoin(PutJoin(join, table, rest)) && !StartsName(PutJoin(join, table, rest))
  {
    var right := PutQualified(join.joiningTable, join.joiningColumn, rest);
    var left := PutQualified(LeftTable(join, table), join.leftColumn, "=" + right);
    ReadsJoinKind(join.kind, PutTable(join.joiningTable, " ON " + left));
    ReadsTable(join.joiningTable, " ON " + left);
    EatOwn(" ON ", left);
    ReadsQualified(LeftTable(join, table), join.leftColumn, "=" + right);
    EatOwn("=", right);
    ReadsQualified(join.joiningTable, join.joiningColumn, rest);
  }

  lemma ReadsJoinKind(kind: JoinKind, rest: string)
    ensures var s := JoinText(kind) + rest;
            ReadJoinKind(s) == Some((kind, rest)) && s[0] == ' ' && StartsJoin(s)
  {
    EatOwn(JoinText(kind), rest);
  }

  /** The end of a query, or a clause that is not a join. */
  predicate AfterJoins(rest: string) {
    rest == ";" || (|rest| >= 3 && rest[0] == ' ' && ((rest[1] == 'W') || (rest[1] == 'O') || (rest[1] == 'L' && rest[2] == 'I')))
  }

  lemma {:induction false} ReadsJoins(joins: seq<Join>, table: Table, rest: string)
    requires AfterJoins(rest)
    ensures ReadJoins(PutJoins(joins, table, rest)) == Some((ParsedJoins(joins, table), rest))
    ensures !StartsName(PutJoins(joins, table, rest))
    decreases |joins|
  {
    if joins == [] {
      assert ParsedJoins(joins, table) == [];
    } else {
      var others := PutJoins(joins[1..], table, rest);
      ReadsJoins(joins[1..], table, rest);
      ReadsJoin(joins[0], table, others);
      ReadsFirstJoin(PutJoin(joins[0], table, others), ParsedJoinOf(joins[0], table), others,
                     ParsedJoins(joins[1..], table), rest);
      ParsedJoinsSplit(joins, table);
    }
  }

  lemma ReadsFirstJoin(s: string, first: ParsedJoin, others: string, joins: seq<ParsedJoin>, rest: string)
    requires StartsJoin(s) && ReadJoin(s) == Some((first, others))
    requires ReadJoins(others) == Some((joins, rest))
    ensures ReadJoins(s) == Some(([first] + joins, rest))
  {}

  lemma ParsedJoinsSplit(joins: seq<Join>, table: Table)
    requires joins != []
    ensures ParsedJoins(joins, table) == [ParsedJoinOf(joins[0], table)] + ParsedJoins(joins[1..], table)
  {}

  lemma ReadsWhere(condition: Option<Condition>, k: nat, rest: string)
    requires PrintableIfAny(condition)
    requires |rest| > 1 ==> rest[1] != 'W'
    ensures ReadWhere(PutWhere(condition, k, rest)) == Some((ParsedCondition(condition, k), rest))
  {
    if condition.Some? {
      EatOwn(" WHERE ", Put(condition.value, k, rest));
      ReadsWhatWasPut(condition.value, k, rest);
    } else {
      EatOther(rest, " WHERE ", 1);
    }
  }

  lemma ReadsOrder(orderBy: Option<Column>, kind: OrderKind, rest: string)
    requires |rest| > 2 ==> rest[2] != 'R'
    ensures ReadOrder(PutOrder(orderBy, kind, rest))
            == Some((if orderBy.Some? then Some((orderBy.value, kind)) else None, rest))
  {
    if orderBy.Some? {
      var kinded := OrderText(kind) + rest;
      EatOwn(" ORDER BY ", orderBy.value + kinded);
      ReadOwnName(orderBy.value, kinded);
      EatOwn(OrderText(kind), rest);
      if kind.DESC? {
        EatOther(kinded, " ASC", 1);
      }
    } else {
      EatOther(rest, " ORDER BY ", 2);
    }
  }

  lemma ReadsLimit(word: string, n: Option<int>, rest: string)
    requires |word| > 1 && (|rest| > 1 ==> rest[1] != word[1])
    requires !StartsDigit(rest)
    ensures ReadLimit(word, PutLimit(word, n, rest)) == Some((n, rest))
  {
    if n.Some? {
      EatOwn(word, PutNumber(n.value, rest));
      ReadOwnNumber(n.value, rest);
    } else {
      EatOther(rest, word, 1);
    }
  }

  /** Each clause of a SELECT begins differently from those that may come before it. */
  lemma ClausesStart(o: Options, k: nat)
    requires o.Select? && Serializable(o)
    ensures !StartsDigit(";")
    ensures var shifted := PutLimit(" OFFSET ", o.offset, ";");
            var limited := PutLimit(" LIMIT ", o.limit, shifted);
            var ordered := PutOrder(o.orderBy, o.orderKind, limited);
            && !StartsDigit(shifted) && (|shifted| > 1 ==> shifted[1] != 'L')
            && (|limited| > 2 ==> limited[2] != 'R')
            && (|ordered| > 1 ==> ordered[1] != 'W')
            && AfterJoins(PutWhere(o.condition, k, ordered))
  {}

  lemma ReadsTail(o: Options, k: nat, columns: seq<ParsedColumn>)
    requires o.Select? && Serializable(o)
    ensures ReadTail(columns, PutTable(o.table, PutTail(o, k)))
            == Some(SelectStatement(columns, o.table, ParsedJoins(o.joins, o.table), ParsedCondition(o.condition, k),
                                    if o.orderBy.Some? then Some((o.orderBy.value, o.orderKind)) else None,
                                    o.limit, o.offset))
  {
    hide PutTable, PutJoins, PutWhere, PutOrder, PutLimit, ReadTable, ReadJoins, ReadWhere, ReadOrder, ReadLimit, ParsedJoins,
      ParsedCondition, Printable, AfterJoins, StartsDigit;
    var shifted := PutLimit(" OFFSET ", o.offset, ";");
    var limited := PutLimit(" LIMIT ", o.limit, shifted);
    var ordered := PutOrder(o.orderBy, o.orderKind, limited);
    var conditioned := PutWhere(o.condition, k, ordered);
    ClausesStart(o, k);
    ReadsTable(o.table, PutTail(o, k));
    ReadsJoins(o.joins, o.table, conditioned);
    ReadsWhere(o.condition, k, ordered);
    ReadsOrder(o.orderBy, o.orderKind, limited);
    ReadsLimit(" LIMIT ", o.limit, shifted);
    ReadsLimit(" OFFSET ", o.offset, ";");
  }

  lemma ReadsSelect(o: Options, k: nat)
    requires o.Select? && Serializable(o)
    ensures ReadSelect(Serialized(o, k)) == Some(Intended(o, k))
  {
    var tail := PutTable(o.table, PutTail(o, k));
    ReadsTail(o, k, ParsedColumns(o.columns, o.joins, o.table));
    if o.columns == [] {
      assert ParsedColumns(o.columns, o.joins, o.table) == [];
      ReadsStar(tail);
    } else {
      var listed := PutColumns(o.columns, o.joins, o.table, " FROM " + tail);
      EatOwn("SELECT ", listed);
      ReadsColumns(o.columns, o.joins, o.table, " FROM " + tail);
      EatOwn(" FROM ", tail);
      ColumnsAreNoStar(o.columns, o.joins, o.table, " FROM " + tail);
      EatOther(listed, "* FROM ", 0);
    }
  }

  lemma ReadsStar(tail: string)
    ensures ReadSelect("SELECT " + ("*" + (" FROM " + tail))) == ReadTail([], tail)
  {
    var listed := "*" + (" FROM " + tail);
    EatOwn("SELECT ", listed);
    assert listed == "* FROM " + tail;
    EatOwn("* FROM ", tail);
    assert listed[7..] == tail;
  }

  lemma ColumnsAreNoStar(columns: seq<Column>, joins: seq<Join>, table: Table, rest: string)
    requires columns != []
    ensures StartsName(PutColumns(columns, joins, table, rest))
  {
    assert NameChar(columns[0][0]);
  }

  lemma ReadsRow(k: nat, width: nat, others: string)
    ensures ReadRows("(" + PutMarks(k, width, ")" + others)) ==
            var more := Eat(others, ", ");
            if more.None? then Some(([From(k, width)], others))
            else if ReadRows(more.value).None? then None
            else Some(([From(k, width)] + ReadRows(more.value).value.0, ReadRows(more.value).value.1))
  {
    var s := "(" + PutMarks(k, width, ")" + others);
    assert s[1..] == PutMarks(k, width, ")" + others);
    ReadOwnMarks(k, width, ")" + others);
    EatOwn(")", others);
  }

  lemma FewRows(k: nat, width: nat)
    ensures MarkRows(k, width, 0) == [] && MarkRows(k, width, 1) == [From(k, width)]
  {}

  lemma {:induction false} ReadsRows(k: nat, width: nat, n: nat, rest: string)
    requires rest != "" && rest[0] != '(' && rest[0] != ','
    ensures ReadRows(PutRows(k, width, n, rest)) == Some((MarkRows(k, width, n), rest))
    decreases n
  {
    FewRows(k, width);
    if n == 1 {
      ReadsRow(k, width, rest);
      EatOther(rest, ", ", 0);
    } else if n > 1 {
      ReadsMoreRows(k, width, n, rest);
      ReadsRows(k + width, width, n - 1, rest);
      RowsShift(k, width, n);
    }
  }

  lemma ReadsMoreRows(k: nat, width: nat, n: nat, rest: string)
    requires n > 1
    ensures var more := ReadRows(PutRows(k + width, width, n - 1, rest));
            ReadRows(PutRows(k, width, n, rest))
            == if more.None? then None else Some(([From(k, width)] + more.value.0, more.value.1))
  {
    var others := PutRows(k + width, width, n - 1, rest);
    ReadsRow(k, width, ", " + others);
    EatOwn(", ", others);
  }

  lemma RowsShift(k: nat, width: nat, n: nat)
    requires n > 0
    ensures MarkRows(k, width, n) == [From(k, width)] + MarkRows(k + width, width, n - 1)
  {
    forall i | 0 < i < n ensures MarkRows(k, width, n)[i] == MarkRows(k + width, width, n - 1)[i - 1] {
      assert k + i * width == k + width + (i - 1) * width;
    }
  }

  lemma ReadsReturning(returning: seq<Column>)
    ensures ReadReturning(PutReturning(returning, ";")) == Some(Names(returning))
  {
    if returning == [] {
      assert Names(returning) == [];
    } else {
      EatOwn(" RETURNING ", PutNames(returning, ";"));
      ReadsNames(returning, ";");
    }
  }

  /** The columns of an INSERT, if any, as printed before its rows. */
  function Listed(o: Options, rows: string): string
    requires o.Insert?
  {
    var values := "VALUES " + rows;
    if o.columns == [] then values else "(" + PutNames(o.columns, ") " + values)
  }

  lemma ReadsColumnsOfInsert(o: Options, rows: string)
    requires o.Insert?
    ensures var listed := Listed(o, rows);
            listed != "" &&
            if o.columns == [] then listed[0] != '(' && Eat(listed, "VALUES ") == Some(rows)
            else listed[0] == '(' && var (names, more) := ReadNames(listed[1..]);
                 names == Names(o.columns) && Eat(more, ") VALUES ") == Some(rows)
  {
    hide PutNames, ReadNames, Eat;
    var values := "VALUES " + rows;
    EatOwn("VALUES ", rows);
    if o.columns != [] {
      var valued := ") " + values;
      assert Listed(o, rows)[1..] == PutNames(o.columns, valued);
      ReadsNames(o.columns, valued);
      assert valued == ") VALUES " + rows;
      EatOwn(") VALUES ", rows);
    }
  }

  /** The columns of an INSERT, if any, and everything after them. */
  lemma ReadsInserted(o: Options, rows: string)
    requires o.Insert?
    ensures ReadInsert("INSERT INTO " + PutTable(o.table, " " + Listed(o, rows))) ==
            match ReadRows(rows)
            case None => None
            case Some((read, rest)) =>
              var returning := ReadReturning(rest);
              if returning.None? then None else Some(InsertStatement(o.table, Names(o.columns), read, returning.value))
  {
    hide PutTable, PutNames, ReadTable, ReadNames, ReadRows, ReadReturning, Eat, Listed;
    var listed := Listed(o, rows);
    EatOwn("INSERT INTO ", PutTable(o.table, " " + listed));
    ReadsTable(o.table, " " + listed);
    EatOwn(" ", listed);
    ReadsColumnsOfInsert(o, rows);
    if o.columns == [] {
      assert Names(o.columns) == [];
    }
  }

  lemma ReadsInsert(o: Options, k: nat)
    requires o.Insert? && Serializable(o)
    ensures ReadInsert(Serialized(o, k)) == Some(Intended(o, k))
  {
    var rows := PutRows(k, |o.columns|, o.valuesCount, PutReturning(o.returning, ";"));
    ReadsInserted(o, rows);
    ReadsRows(k, |o.columns|, o.valuesCount, PutReturning(o.returning, ";"));
    ReadsReturning(o.returning);
  }

  lemma ReadsSet(column: string, k: nat, others: string)
    requires IsName(column) && !StartsDigit(others)
    ensures ReadSets(column + (" = " + PutMark(k, others))) ==
            var more := Eat(others, ", ");
            if more.None? then Some(([(column, k)], others))
            else if ReadSets(more.value).None? then None
            else Some(([(column, k)] + ReadSets(more.value).value.0, ReadSets(more.value).value.1))
  {
    ReadOwnName(column, " = " + PutMark(k, others));
    EatOwn(" = ", PutMark(k, others));
    ReadOwnMark(k, others);
  }

  lemma MarkedSetsSplit(columns: seq<Column>, k: nat)
    requires columns != []
    ensures MarkedSets(columns, k) == [(columns[0], k)] + MarkedSets(columns[1..], k + 1)
  {}

  lemma {:induction false} ReadsSets(columns: seq<Column>, k: nat, rest: string)
    requires columns != [] && rest != "" && rest[0] == ' '
    ensures ReadSets(PutSets(columns, k, rest)) == Some((MarkedSets(columns, k), rest))
    decreases |columns|
  {
    if |columns| == 1 {
      ReadsSet(columns[0], k, rest);
      EatOther(rest, ", ", 0);
      assert MarkedSets(columns, k) == [(columns[0], k)];
    } else {
      var others := PutSets(columns[1..], k + 1, rest);
      ReadsSet(columns[0], k, ", " + others);
      EatOwn(", ", others);
      ReadsSets(columns[1..], k + 1, rest);
      MarkedSetsSplit(columns, k);
    }
  }

  lemma WhereStarts(condition: Option<Condition>, k: nat)
    requires condition.Some? && PrintableIfAny(condition)
    ensures PutWhere(condition, k, ";") != "" && PutWhere(condition, k, ";")[0] == ' '
  {}

  lemma ReadsUpdate(o: Options, k: nat)
    requires o.Update? && Serializable(o)
    ensures ReadUpdate(Serialized(o, k)) == Some(Intended(o, k))
  {
    hide PutTable, PutSets, PutWhere, ReadTable, ReadSets, ReadWhere, ReadUpdate, Printable, ParsedCondition, MarkedSets;
    var conditioned := PutWhere(o.condition, k + |o.columns|, ";");
    assert conditioned[0] == ' ' by { WhereStarts(o.condition, k + |o.columns|); }
    var sets := PutSets(o.columns, k, conditioned);
    ReadsTable(o.table, " SET " + sets);
    ReadsSets(o.columns, k, conditioned);
    ReadsWhere(o.condition, k + |o.columns|, ";");
    ReadsUpdateOf(PutTable(o.table, " SET " + sets), o.table, sets, MarkedSets(o.columns, k), conditioned,
                  ParsedCondition(o.condition, k + |o.columns|));
  }

  lemma ReadsUpdateOf(s: string, table: string, listed: string, sets: seq<(string, nat)>, conditioned: string,
                      condition: Option<Sql>)
    requires ReadTable(s) == Some((table, " SET " + listed)) && ReadSets(listed) == Some((sets, conditioned))
    requires ReadWhere(conditioned) == Some((condition, ";"))
    ensures ReadUpdate("UPDATE " + s) == Some(UpdateStatement(table, sets, condition))
  {
    hide ReadTable, ReadSets, ReadWhere, Eat;
    EatOwn("UPDATE ", s);
    EatOwn(" SET ", listed);
  }

  lemma ReadsDelete(o: Options, k: nat)
    requires o.Delete? && Serializable(o)
    ensures ReadDelete(Serialized(o, k)) == Some(Intended(o, k))
  {
    var conditioned := PutWhere(o.condition, k, ";");
    EatOwn("DELETE FROM ", PutTable(o.table, conditioned));
    ReadsTable(o.table, conditioned);
    ReadsWhere(o.condition, k, ";");
  }

  lemma FirstLetter(o: Options, k: nat)
    requires Serializable(o)
    ensures var s := Serialized(o, k);
            s != "" && s[0] == match o
                               case Select(_, _, _, _, _, _, _, _) => 'S'
                               case Insert(_, _, _, _) => 'I'
                               case Update(_, _, _) => 'U'
                               case Delete(_, _) => 'D'
  {}

  /** The database parses every serialised query as the statement its options describe. */
  lemma ReadsStatement(o: Options, k: nat)
    requires Serializable(o)
    ensures ReadStatement(Serialized(o, k)) == Some(Intended(o, k))
  {
    hide ReadSelect, ReadInsert, ReadUpdate, ReadDelete, Serialized, Printable, Intended;
    FirstLetter(o, k);
    match o
    case Select(_, _, _, _, _, _, _, _) => ReadsSelect(o, k);
    case Insert(_, _, _, _) => ReadsInsert(o, k);
    case Update(_, _, _) => ReadsUpdate(o, k);
    case Delete(_, _) => ReadsDelete(o, k);
  }

  // ---------- What a statement says, part by part ----------

  /** The parsed SELECT has the options' own parts: a column is qualified exactly when some join has it on its left, and
      a join pairs its left column, of its own or else the query's table, with the joining table's column. */
  lemma SelectSays(o: Options, k: nat)
    requires Serializable(o) && o.Select?
    ensures var statement := ReadStatement(Serialized(o, k));
            && statement.Some? && statement.value.SelectStatement?
            && var SelectStatement(columns, table, joins, condition, order, limit, offset) := statement.value;
               && table == o.table && limit == o.limit && offset == o.offset
               && |columns| == |o.columns| && |joins| == |o.joins|
               && (forall i | 0 <= i < |columns| ::
                     && columns[i].name == o.columns[i]
                     && (columns[i].table == if exists join :: join in o.joins && join.leftColumn == o.columns[i] then Some(o.table) else None))
               && (forall i | 0 <= i < |joins| ::
                     var join := o.joins[i];
                     && joins[i].kind == join.kind && joins[i].joiningTable == joins[i].rightTable == join.joiningTable
                     && joins[i].leftTable == (if join.leftTable == None then o.table else join.leftTable.value)
                     && joins[i].leftColumn == join.leftColumn && joins[i].rightColumn == join.joiningColumn)
               && (order == if o.orderBy == None then None else Some((o.orderBy.value, o.orderKind)))
               && (condition == if o.condition == None then None else Some(Shape(o.condition.value, k)))
  {
    hide Serialized, ReadStatement, Shape, Printable;
    ReadsStatement(o, k);
  }

  /** The parsed INSERT has the options' columns, and the placeholders from `k` on row after row. */
  lemma InsertSays(o: Options, k: nat)
    requires Serializable(o) && o.Insert?
    ensures var statement := ReadStatement(Serialized(o, k));
            && statement.Some? && statement.value.InsertStatement?
            && var InsertStatement(table, columns, rows, returning) := statement.value;
               && table == o.table && |columns| == |o.columns| && |returning| == |o.returning| && |rows| == o.valuesCount
               && (forall i | 0 <= i < |columns| :: columns[i] == o.columns[i])
               && (forall i | 0 <= i < |returning| :: returning[i] == o.returning[i])
               && (forall i | 0 <= i < |rows| :: |rows[i]| == |o.columns|)
               && (forall i, j | 0 <= i < |rows| && 0 <= j < |rows[i]| :: rows[i][j] == k + i * |o.columns| + j)
  {
    hide Serialized, ReadStatement;
    ReadsStatement(o, k);
  }

  /** The parsed UPDATE sets the options' columns from the placeholders `k` on; those of the condition follow. */
  lemma UpdateSays(o: Options, k: nat)
    requires Serializable(o) && o.Update?
    ensures var statement := ReadStatement(Serialized(o, k));
            && statement.Some? && statement.value.UpdateStatement?
            && var UpdateStatement(table, sets, condition) := statement.value;
               && table == o.table && |sets| == |o.columns|
               && (forall i | 0 <= i < |sets| :: sets[i] == (o.columns[i], k + i))
               && condition == Some(Shape(o.condition.value, k + |o.columns|))
  {
    hide Serialized, ReadStatement, Shape, Printable;
    ReadsStatement(o, k);
  }

  lemma DeleteSays(o: Options, k: nat)
    requires Serializable(o) && o.Delete?
    ensures ReadStatement(Serialized(o, k)) == Some(DeleteStatement(o.table, Some(Shape(o.condition.value, k))))
  {
    hide Serialized, ReadStatement, Shape, Printable;
    ReadsStatement(o, k);
  }
}
