/** Equals of the query options, when it coincides with serialising to the same text, and which parameter
    each part of a statement receives. */
module QueryEquality {
  import opened Wrappers
  import opened Texts
  import opened Conditions
  import opened Meanings
  import opened Queries
  import opened Parsing
  import E = Equality

  predicate SameCondition(a: Option<Condition>, b: Option<Condition>) {
    (a.None? && b.None?) || (a.Some? && b.Some? && E.Equals(a.value, b.value))
  }

  /** As the options compare themselves; the direction of an ORDER BY is not looked at. */
  predicate Equals(o: Options, p: Options) {
    match o
    case Select(table, columns, joins, condition, orderBy, _, limit, offset) =>
      p.Select? && table == p.table && columns == p.columns && joins == p.joins && orderBy == p.orderBy
      && limit == p.limit && offset == p.offset && SameCondition(condition, p.condition)
    case Insert(table, columns, returning, valuesCount) =>
      p.Insert? && table == p.table && columns == p.columns && valuesCount == p.valuesCount && returning == p.returning
    case Update(table, columns, condition) =>
      p.Update? && table == p.table && columns == p.columns && SameCondition(condition, p.condition)
    case Delete(table, condition) =>
      p.Delete? && table == p.table && SameCondition(condition, p.condition)
  }

  predicate NegationFree(o: Options) {
    !o.Insert? && o.condition.Some? ==> E.NotFree(o.condition.value)
  }

  /** What every query of the application satisfies: groups are AND, orders are ascending. */
  predicate Plain(o: Options) {
    && (!o.Insert? && o.condition.Some? ==> E.AndOnly(o.condition.value))
    && (o.Select? ==> o.orderKind == ASC)
  }

  /** The two things Equals leaves out: the links of groups and the direction of an order. */
  predicate Alike(o: Options, p: Options) {
    && (!o.Insert? && !p.Insert? && o.condition.Some? && p.condition.Some? ==>
          E.LinksAgree(o.condition.value, p.condition.value))
    && (o.Select? && p.Select? && o.orderBy.Some? && p.orderBy.Some? ==> o.orderKind == p.orderKind)
  }

  /** No join names the query's own table where leaving it out would mean the same. */
  predicate Normal(o: Options) {
    o.Select? ==> forall join | join in o.joins :: join.leftTable != Some(o.table)
  }

  lemma PlainAlike(o: Options, p: Options)
    requires Plain(o) && Plain(p)
    ensures Alike(o, p)
  {
    if !o.Insert? && !p.Insert? && o.condition.Some? && p.condition.Some? {
      E.AndOnlyLinksAgree(o.condition.value, p.condition.value);
    }
  }

  lemma SameWhere(a: Option<Condition>, b: Option<Condition>, k: nat, rest: string)
    requires PrintableIfAny(a) && PrintableIfAny(b) && SameCondition(a, b)
    requires a.Some? ==> E.NotFree(a.value) && E.LinksAgree(a.value, b.value)
    ensures PutWhere(a, k, rest) == PutWhere(b, k, rest)
  {
    if a.Some? {
      E.EqualPrintsSame(a.value, b.value, k, rest);
    }
  }

  /** Options found Equal serialise to the same text: what makes reusing a prepared query sound. */
  lemma EqualSerializesSame(o: Options, p: Options, k: nat)
    requires Serializable(o) && Serializable(p) && Equals(o, p) && Alike(o, p)
    ensures NegationFree(o) && Serialized(o, k) == Serialized(p, k)
  {
    hide Printable, PutTable, PutColumns, PutJoins, PutSets, PutLimit, PutRows, PutNames, PutReturning, PutWhere;
    if !o.Insert? && o.condition.Some? && !E.NotFree(o.condition.value) {
      E.NegationNeverEquals(o.condition.value, p.condition.value);
    }
    match o
    case Select(_, _, _, condition, orderBy, orderKind, limit, offset) =>
      SameWhere(condition, p.condition, k,
                PutOrder(orderBy, orderKind, PutLimit(" LIMIT ", limit, PutLimit(" OFFSET ", offset, ";"))));
    case Insert(_, _, _, _) =>
    case Update(_, columns, condition) => SameWhere(condition, p.condition, k + |columns|, ";");
    case Delete(_, condition) => SameWhere(condition, p.condition, k, ";");
  }

  lemma SameNames(a: seq<Column>, b: seq<Column>)
    requires Names(a) == Names(b)
    ensures a == b
  {
    assert |Names(a)| == |Names(b)|;
    forall i | 0 <= i < |a| ensures a[i] == b[i] {
      assert Names(a)[i] == Names(b)[i];
    }
  }

  lemma SameColumns(a: seq<Column>, b: seq<Column>, one: seq<Join>, two: seq<Join>, table: Table)
    requires ParsedColumns(a, one, table) == ParsedColumns(b, two, table)
    ensures a == b
  {
    assert |ParsedColumns(a, one, table)| == |ParsedColumns(b, two, table)|;
    forall i | 0 <= i < |a| ensures a[i] == b[i] {
      assert ParsedColumns(a, one, table)[i] == ParsedColumns(b, two, table)[i];
    }
  }

  lemma SameShape(a: Option<Condition>, b: Option<Condition>, k: nat)
    requires PrintableIfAny(a) && PrintableIfAny(b) && ParsedCondition(a, k) == ParsedCondition(b, k)
    requires a.Some? ==> E.NotFree(a.value)
    ensures SameCondition(a, b) && (a.Some? ==> E.LinksAgree(a.value, b.value))
  {
    if a.Some? {
      E.ShapeTellsCondition(a.value, b.value, k);
    }
  }

  // ---------- Joins that name the query's own table or leave it out ----------

  function NormJoins(joins: seq<Join>, table: Table): seq<Join> {
    seq(|joins|, i requires 0 <= i < |joins| => joins[i].(leftTable := Some(LeftTable(joins[i], table))))
  }

  /** The options with every join naming its left table. */
  function Norm(o: Options): Options {
    if o.Select? then o.(joins := NormJoins(o.joins, o.table)) else o
  }

  lemma SameJoins(a: seq<Join>, b: seq<Join>, table: Table)
    requires ParsedJoins(a, table) == ParsedJoins(b, table)
    ensures NormJoins(a, table) == NormJoins(b, table)
  {
    assert |ParsedJoins(a, table)| == |ParsedJoins(b, table)|;
    forall i | 0 <= i < |a| ensures NormJoins(a, table)[i] == NormJoins(b, table)[i] {
      assert ParsedJoins(a, table)[i] == ParsedJoins(b, table)[i];
    }
  }

  lemma {:induction false} NormJoinsPrintSame(joins: seq<Join>, table: Table, rest: string)
    ensures PutJoins(NormJoins(joins, table), table, rest) == PutJoins(joins, table, rest)
    decreases |joins|
  {
    if joins != [] {
      assert NormJoins(joins, table)[1..] == NormJoins(joins[1..], table);
      NormJoinsPrintSame(joins[1..], table, rest);
    }
  }

  lemma NormLocalizes(joins: seq<Join>, table: Table, column: Column)
    ensures Localized(column, NormJoins(joins, table)) <==> Localized(column, joins)
  {
    var norm := NormJoins(joins, table);
    if join :| join in joins && join.leftColumn == column {
      var i :| 0 <= i < |joins| && joins[i] == join;
      assert norm[i] in norm && norm[i].leftColumn == column;
    }
    if join :| join in norm && join.leftColumn == column {
      var i :| 0 <= i < |norm| && norm[i] == join;
      assert joins[i] in joins && joins[i].leftColumn == column;
    }
  }

  lemma {:induction false} NormColumnsPrintSame(columns: seq<Column>, joins: seq<Join>, table: Table, rest: string)
    ensures PutColumns(columns, NormJoins(joins, table), table, rest) == PutColumns(columns, joins, table, rest)
    decreases |columns|
  {
    if columns != [] {
      NormColumnsPrintSame(columns[1..], joins, table, rest);
      NormLocalizes(joins, table, columns[0]);
    }
  }

  lemma NormPrintsSame(o: Options, k: nat)
    requires Serializable(o)
    ensures Serialized(Norm(o), k) == Serialized(o, k)
  {
    if o.Select? {
      var where := PutWhere(o.condition, k,
        PutOrder(o.orderBy, o.orderKind, PutLimit(" LIMIT ", o.limit, PutLimit(" OFFSET ", o.offset, ";"))));
      NormJoinsPrintSame(o.joins, o.table, where);
      assert PutTail(Norm(o), k) == PutTail(o, k);
      NormColumnsPrintSame(o.columns, o.joins, o.table, " FROM " + PutTable(o.table, PutTail(o, k)));
      assert NormJoins(o.joins, o.table) == Norm(o).joins;
    }
  }

  /** Where no join names the query's own table, nothing is lost by filling it in. */
  lemma NormalNormTells(o: Options, p: Options)
    requires Normal(o) && Normal(p)
    ensures Equals(Norm(o), Norm(p)) <==> Equals(o, p)
  {
    if o.Select? && p.Select? && o.table == p.table && Norm(o).joins == Norm(p).joins {
      assert |Norm(o).joins| == |o.joins| && |Norm(p).joins| == |p.joins|;
      forall i | 0 <= i < |o.joins| ensures o.joins[i] == p.joins[i] {
        assert Norm(o).joins[i] == Norm(p).joins[i];
        assert o.joins[i] in o.joins && p.joins[i] in p.joins;
      }
      assert o.joins == p.joins;
    }
  }

  lemma SameSets(a: seq<Column>, b: seq<Column>, k: nat)
    requires MarkedSets(a, k) == MarkedSets(b, k)
    ensures a == b
  {
    assert |MarkedSets(a, k)| == |MarkedSets(b, k)|;
    forall i | 0 <= i < |a| ensures a[i] == b[i] {
      assert MarkedSets(a, k)[i] == MarkedSets(b, k)[i];
    }
  }

  /** The statement tells the options, up to what Equals and Alike look at. */
  lemma IntentTellsOptions(o: Options, p: Options, k: nat)
    requires Serializable(o) && Serializable(p) && NegationFree(o)
    requires Intended(o, k) == Intended(p, k)
    ensures Equals(Norm(o), Norm(p)) && Alike(o, p)
  {
    match o
    case Select(table, columns, joins, condition, _, _, _, _) =>
      SameColumns(columns, p.columns, joins, p.joins, table);
      SameJoins(joins, p.joins, table);
      SameShape(condition, p.condition, k);
    case Insert(_, columns, returning, valuesCount) =>
      SameNames(columns, p.columns);
      SameNames(returning, p.returning);
      assert |MarkRows(k, |columns|, valuesCount)| == |MarkRows(k, |columns|, p.valuesCount)|;
    case Update(_, columns, condition) =>
      SameSets(columns, p.columns, k);
      SameShape(condition, p.condition, k + |columns|);
    case Delete(_, condition) =>
      SameShape(condition, p.condition, k);
  }

  lemma NormKeeps(o: Options, p: Options)
    ensures Alike(Norm(o), Norm(p)) <==> Alike(o, p)
    ensures Serializable(Norm(o)) <==> Serializable(o)
  {}

  /** Two queries serialise to the same text exactly when they are alike and, with the left tables of all joins filled
      in, Equal. */
  lemma SameTextIffSameQuery(o: Options, p: Options, k: nat)
    requires Serializable(o) && Serializable(p) && NegationFree(o)
    ensures Serialized(o, k) == Serialized(p, k) <==> Equals(Norm(o), Norm(p)) && Alike(o, p)
  {
    if Serialized(o, k) == Serialized(p, k) {
      ReadsStatement(o, k);
      ReadsStatement(p, k);
      IntentTellsOptions(o, p, k);
    } else if Equals(Norm(o), Norm(p)) && Alike(o, p) {
      NormKeeps(o, p);
      NormKeeps(p, o);
      EqualSerializesSame(Norm(o), Norm(p), k);
      NormPrintsSame(o, k);
      NormPrintsSame(p, k);
    }
  }

  lemma EqualNorms(o: Options, p: Options)
    requires Equals(o, p)
    ensures NegationFree(o) && Equals(Norm(o), Norm(p))
  {
    if !o.Insert? && o.condition.Some? {
      E.EqualsTellsNotFree(o.condition.value, p.condition.value);
    }
    if o.Select? {
      assert NormJoins(o.joins, o.table) == NormJoins(p.joins, p.table);
    }
  }

  /** Equal options print the same text if and only if they agree on what Equals ignores. */
  lemma EqualTextIff(o: Options, p: Options, k: nat)
    requires Serializable(o) && Serializable(p) && Equals(o, p)
    ensures Serialized(o, k) == Serialized(p, k) <==> Alike(o, p)
  {
    EqualNorms(o, p);
    SameTextIffSameQuery(o, p, k);
  }

  /** So, for queries that are alike, Equals agrees with equality of texts exactly when filling in the left tables does
      not change its answer, which is so when no join names the query's own table. */
  lemma EqualsAgreesIff(o: Options, p: Options, k: nat)
    requires Serializable(o) && Serializable(p) && NegationFree(o) && Alike(o, p)
    ensures (Equals(o, p) <==> Serialized(o, k) == Serialized(p, k)) <==> (Equals(o, p) <==> Equals(Norm(o), Norm(p)))
    ensures Normal(o) && Normal(p) ==> (Equals(o, p) <==> Serialized(o, k) == Serialized(p, k))
  {
    SameTextIffSameQuery(o, p, k);
    if Normal(o) && Normal(p) {
      NormalNormTells(o, p);
    }
  }

  /** Equal options with different texts: the direction of the order is ignored. */
  lemma EqualsIgnoresTheDirection(table: Table, column: Column)
    requires table != NO_TABLE
    ensures var o := Select(table, [column], [], None, Some(column), ASC, None, None);
            var p := o.(orderKind := DESC);
            Equals(o, p) && Serialized(o, 1) != Serialized(p, 1)
  {
    var o := Select(table, [column], [], None, Some(column), ASC, None, None);
    SameTextIffSameQuery(o, o.(orderKind := DESC), 1);
  }

  /** The same text from options that are not Equal: a join may name the query's own table or leave it out. */
  lemma EqualsSeesTheOwnTable(table: Table, column: Column)
    requires table != NO_TABLE
    ensures var join := Join(LEFT, None, column, table, column);
            var o := Select(table, [], [join], None, None, ASC, None, None);
            var p := o.(joins := [join.(leftTable := Some(table))]);
            !Equals(o, p) && Serialized(o, 1) == Serialized(p, 1)
  {
    var join := Join(LEFT, None, column, table, column);
    var explicit := join.(leftTable := Some(table));
    assert [join][1..] == [] && [explicit][1..] == [];
    assert [join][0] != [explicit][0];
  }

  // ---------- Which parameter goes where ----------

  /** Parameters behind others keep their place after them. */
  lemma BoundBehind(before: seq<string>, values: seq<string>)
    requires "NULL" !in values
    ensures Holds(Bind(before + values), |before| + 1, values)
  {
    forall i | 0 <= i < |values| ensures Param(Bind(before + values), |before| + 1 + i) == Some(values[i]) {
      assert (before + values)[|before| + i] == values[i] && values[i] in values;
    }
  }

  lemma BoundFirst(values: seq<string>, after: seq<string>, i: nat)
    requires i < |values|
    ensures Param(Bind(values + after), 1 + i) == Rendered(values[i])
  {}

  lemma SetsAlign(columns: seq<Column>, values: seq<string>, after: seq<string>, i: nat)
    requires |values| == |columns| && i < |columns|
    ensures var target := MarkedSets(columns, 1)[i];
            target.0 == columns[i] && Param(Bind(values + after), target.1) == Rendered(values[i])
  {
    BoundFirst(values, after, i);
  }

  /** UPDATE: each column is set to its own value and the condition keeps its meaning. */
  lemma UpdateAligns(o: Options, values: seq<string>, row: Row, order: Order)
    requires o.Update? && Serializable(o) && |values| == |o.columns|
    ensures var params := Bind(values + Params(o.condition.value));
            var sets, where := MarkedSets(o.columns, 1), Shape(o.condition.value, |o.columns| + 1);
            && ReadStatement(Serialized(o, 1)) == Some(UpdateStatement(o.table, sets, Some(where)))
            && |sets| == |o.columns|
            && (forall i | 0 <= i < |o.columns| :: sets[i].0 == o.columns[i] && Param(params, sets[i].1) == Rendered(values[i]))
            && ("NULL" !in Params(o.condition.value) ==>
                  Evaluate(where, row, params, order) == Meaning(o.condition.value, row, order))
  {
    hide ReadStatement, Serialized, Evaluate, Meaning, Shape;
    ReadsStatement(o, 1);
    AllSetsAlign(o.columns, values, Params(o.condition.value));
    if "NULL" !in Params(o.condition.value) {
      BehindMeans(o.condition.value, values, row, order);
    }
  }

  lemma AllSetsAlign(columns: seq<Column>, values: seq<string>, after: seq<string>)
    requires |values| == |columns|
    ensures var sets := MarkedSets(columns, 1);
            forall i | 0 <= i < |columns| ::
              sets[i].0 == columns[i] && Param(Bind(values + after), sets[i].1) == Rendered(values[i])
  {
    forall i | 0 <= i < |columns|
      ensures var target := MarkedSets(columns, 1)[i];
              target.0 == columns[i] && Param(Bind(values + after), target.1) == Rendered(values[i])
    {
      SetsAlign(columns, values, after, i);
    }
  }

  lemma BehindMeans(condition: Condition, before: seq<string>, row: Row, order: Order)
    requires Printable(condition) && "NULL" !in Params(condition)
    ensures Evaluate(Shape(condition, |before| + 1), row, Bind(before + Params(condition)), order)
            == Meaning(condition, row, order)
  {
    BoundBehind(before, Params(condition));
    ShapeMeans(condition, |before| + 1, row, Bind(before + Params(condition)), order);
  }

  /** SELECT and DELETE: the condition keeps its meaning. */
  lemma WhereAligns(o: Options, row: Row, order: Order)
    requires (o.Select? || o.Delete?) && Serializable(o) && o.condition.Some? && "NULL" !in Params(o.condition.value)
    ensures var statement := ReadStatement(Serialized(o, 1));
            && statement.Some? && !statement.value.InsertStatement? && statement.value.condition.Some?
            && Evaluate(statement.value.condition.value, row, Bind(Params(o.condition.value)), order)
               == Meaning(o.condition.value, row, order)
  {
    ReadsStatement(o, 1);
    ShapeMeans(o.condition.value, 1, row, Bind(Params(o.condition.value)), order);
  }

  /** Value j of row i lies behind the i rows before it. */
  lemma {:induction false} ConcatAt(rows: seq<seq<string>>, width: nat, i: nat, j: nat)
    requires (forall row | row in rows :: |row| == width) && i < |rows| && j < width
    ensures 0 <= i * width + j < |Concat(rows)| && Concat(rows)[i * width + j] == rows[i][j]
    decreases |rows|
  {
    if i > 0 {
      ConcatAt(rows[1..], width, i - 1, j);
      Grow(i, width);
    }
  }

  lemma MarkAt(width: nat, n: nat, i: nat, j: nat)
    requires i < n && j < width
    ensures |MarkRows(1, width, n)[i]| == width && MarkRows(1, width, n)[i][j] == 1 + (i * width + j)
  {}

  lemma ParamAt(values: seq<string>, at: nat)
    requires at < |values|
    ensures Param(Bind(values), 1 + at) == Rendered(values[at])
  {}

  /** INSERT: row i, column j of the statement receives value j of row i, and no parameter is left over. */
  lemma InsertAligns(o: Options, rows: seq<seq<string>>, i: nat, j: nat)
    requires o.Insert? && Serializable(o) && o.valuesCount == |rows|
    requires (forall row | row in rows :: |row| == |o.columns|) && i < |rows| && j < |o.columns|
    ensures var marks := MarkRows(1, |o.columns|, |rows|);
            && ReadStatement(Serialized(o, 1)) == Some(InsertStatement(o.table, Names(o.columns), marks, Names(o.returning)))
            && |marks| == |rows| && |marks[i]| == |o.columns|
            && Param(Bind(Concat(rows)), marks[i][j]) == Rendered(rows[i][j])
            && |Concat(rows)| == |rows| * |o.columns|
  {
    ReadsStatement(o, 1);
    RowsAlign(rows, |o.columns|, i, j);
  }

  lemma RowsAlign(rows: seq<seq<string>>, width: nat, i: nat, j: nat)
    requires (forall row | row in rows :: |row| == width) && i < |rows| && j < width
    ensures |MarkRows(1, width, |rows|)[i]| == width
    ensures Param(Bind(Concat(rows)), MarkRows(1, width, |rows|)[i][j]) == Rendered(rows[i][j])
    ensures |Concat(rows)| == |rows| * width
  {
    ConcatLength(rows, width);
    ConcatAt(rows, width, i, j);
    MarkAt(width, |rows|, i, j);
    ParamAt(Concat(rows), i * width + j);
  }
}
