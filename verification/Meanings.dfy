/** What a condition means, on the tree and on its parametrised text with bound parameters. */
module Meanings {
  import opened Wrappers
  import opened Texts
  import opened Conditions

  datatype Truth = True | False | Unknown

  /** A table row; a missing column value is NULL. */
  type Row = map<string, Option<string>>

  /** How two values that are not NULL compare, in any way whatever; what a database can have is Conjunctions.Lawful. */
  type Order = (Comparison, string, string) -> bool

  function Negate(t: Truth): Truth {
    match t
    case True => False
    case False => True
    case Unknown => Unknown
  }

  function Link(kind: GroupKind, t: Truth, u: Truth): Truth {
    match kind
    case AND => if t == False || u == False then False else if t == True then u else t
    case OR => if t == True || u == True then True else if t == False then u else t
  }

  function Compared(order: Order, comparison: Comparison, left: Option<string>, right: Option<string>): Truth {
    if left.None? || right.None? then Unknown
    else if order(comparison, left.value, right.value) then True
    else False
  }

  function At(row: Row, column: string): Option<string> {
    if column in row then row[column] else None
  }

  /** column IN (...): some value equals it. */
  function AnyEqual(order: Order, left: Option<string>, values: seq<Option<string>>): Truth {
    if values == [] then False
    else Link(OR, Compared(order, Equal, left, values[0]), AnyEqual(order, left, values[1..]))
  }

  function Values(values: seq<string>): seq<Option<string>> {
    seq(|values|, i requires 0 <= i < |values| => Some(values[i]))
  }

  // ---------- The tree ----------

  function Meaning(c: Condition, row: Row, order: Order): Truth
    requires Printable(c)
    decreases c, 1
  {
    match c
    case Group(kind, conditions) => MeaningAll(kind, conditions, row, order)
    case Real(column, comparison, value) => Compared(order, comparison, At(row, column), Some(value))
    case In(column, values) => AnyEqual(order, At(row, column), Values(values))
    case Not(negated) => Negate(Meaning(negated.value, row, order))
    case IsNull(column) => if At(row, column).None? then True else False
  }

  function MeaningAll(kind: GroupKind, conditions: seq<Condition>, row: Row, order: Order): Truth
    requires conditions != [] && forall part | part in conditions :: Printable(part)
    decreases conditions, 0
  {
    var first := Meaning(conditions[0], row, order);
    if |conditions| == 1 then first else Link(kind, first, MeaningAll(kind, conditions[1..], row, order))
  }

  /** A conjunction holds when all its parts do. */
  lemma {:induction false} AndMeansAll(conditions: seq<Condition>, row: Row, order: Order)
    requires conditions != [] && forall part | part in conditions :: Printable(part)
    ensures MeaningAll(AND, conditions, row, order) == True <==>
              forall part | part in conditions :: Meaning(part, row, order) == True
    decreases |conditions|
  {
    assert conditions[0] in conditions;
    assert forall part | part in conditions :: part == conditions[0] || part in conditions[1..];
    if |conditions| > 1 {
      AndMeansAll(conditions[1..], row, order);
    }
  }

  lemma {:induction false} AnyEqualFinds(order: Order, left: string, values: seq<string>)
    ensures AnyEqual(order, Some(left), Values(values)) == True <==> exists value | value in values :: order(Equal, left, value)
  {
    if values == [] {
      assert Values(values) == [];
    } else {
      assert Values(values)[1..] == Values(values[1..]) && Values(values)[0] == Some(values[0]);
      AnyEqualFinds(order, left, values[1..]);
      if order(Equal, left, values[0]) {
        assert values[0] in values;
      }
      assert forall value | value in values :: value == values[0] || value in values[1..];
    }
  }

  // ---------- What three-valued logic keeps ----------

  /** The condition says nothing about NULL. */
  predicate Comparing(c: Condition) {
    match c
    case Group(_, conditions) => forall part | part in conditions :: Comparing(part)
    case Not(negated) => negated.Some? ==> Comparing(negated.value)
    case IsNull(_) => false
    case _ => true
  }

  /** The columns a condition looks at. */
  function Columns(c: Condition): set<string> {
    match c
    case Group(_, conditions) => AllColumns(conditions)
    case Not(negated) => if negated.Some? then Columns(negated.value) else {}
    case Real(column, _, _) => {column}
    case In(column, _) => {column}
    case IsNull(column) => {column}
  }

  function AllColumns(conditions: seq<Condition>): set<string> {
    if conditions == [] then {} else Columns(conditions[0]) + AllColumns(conditions[1..])
  }

  /** Two-valued logic, for rows without NULLs. */
  predicate Classical(c: Condition, row: Row, order: Order) {
    match c
    case Group(AND, conditions) => forall part | part in conditions :: Classical(part, row, order)
    case Group(OR, conditions) => exists part | part in conditions :: Classical(part, row, order)
    case Real(column, comparison, value) => At(row, column).Some? && order(comparison, At(row, column).value, value)
    case In(column, values) => At(row, column).Some? && exists value | value in values :: order(Equal, At(row, column).value, value)
    case Not(negated) => negated.Some? && !Classical(negated.value, row, order)
    case IsNull(column) => At(row, column).None?
  }

  /** Where the columns looked at have values, a condition means what two-valued logic says. */
  lemma {:induction false} WithoutNullsIsClassical(c: Condition, row: Row, order: Order)
    requires Printable(c) && forall column | column in Columns(c) :: At(row, column).Some?
    ensures Meaning(c, row, order) == if Classical(c, row, order) then True else False
    decreases c, 1
  {
    match c
    case Group(kind, conditions) => AllWithoutNulls(kind, conditions, row, order);
    case In(column, values) => AnyWithoutNulls(order, At(row, column).value, values);
    case Not(negated) => WithoutNullsIsClassical(negated.value, row, order);
    case _ =>
  }

  lemma {:induction false} AnyWithoutNulls(order: Order, left: string, values: seq<string>)
    ensures AnyEqual(order, Some(left), Values(values)) != Unknown
    ensures AnyEqual(order, Some(left), Values(values)) == True <==> exists value | value in values :: order(Equal, left, value)
  {
    AnyEqualFinds(order, left, values);
    if values != [] {
      assert Values(values)[1..] == Values(values[1..]) && Values(values)[0] == Some(values[0]);
      AnyWithoutNulls(order, left, values[1..]);
    }
  }

  lemma {:induction false} AllWithoutNulls(kind: GroupKind, conditions: seq<Condition>, row: Row, order: Order)
    requires conditions != [] && forall part | part in conditions :: Printable(part)
    requires forall column | column in AllColumns(conditions) :: At(row, column).Some?
    ensures MeaningAll(kind, conditions, row, order)
            == if (if kind == AND then forall part | part in conditions :: Classical(part, row, order)
                   else exists part | part in conditions :: Classical(part, row, order)) then True else False
    decreases conditions, 0
  {
    WithoutNullsIsClassical(conditions[0], row, order);
    assert forall part :: part in conditions <==> part == conditions[0] || part in conditions[1..];
    if |conditions| > 1 {
      AllWithoutNulls(kind, conditions[1..], row, order);
    }
  }

  /** One row fills in NULLs of the other. */
  ghost predicate Fills(row: Row, full: Row) {
    forall column | At(row, column).Some? :: At(full, column) == At(row, column)
  }

  /** What is known of a comparing condition stays so whatever values its NULLs stand for. */
  lemma {:induction false} KnownStaysKnown(c: Condition, row: Row, full: Row, order: Order)
    requires Printable(c) && Comparing(c) && Fills(row, full) && Meaning(c, row, order) != Unknown
    ensures Meaning(c, full, order) == Meaning(c, row, order)
    decreases c, 1
  {
    match c
    case Group(kind, conditions) => AllKnownStay(kind, conditions, row, full, order);
    case In(column, values) =>
      if At(row, column).None? {
        NoneIsUnknown(order, Values(values));
      }
    case Not(negated) => KnownStaysKnown(negated.value, row, full, order);
    case _ =>
  }

  lemma {:induction false} NoneIsUnknown(order: Order, values: seq<Option<string>>)
    requires values != []
    ensures AnyEqual(order, None, values) == Unknown
  {
    if |values| > 1 {
      NoneIsUnknown(order, values[1..]);
    } else {
      assert AnyEqual(order, None, values[1..]) == False;
    }
  }

  lemma {:induction false} AllKnownStay(kind: GroupKind, conditions: seq<Condition>, row: Row, full: Row, order: Order)
    requires conditions != [] && forall part | part in conditions :: Printable(part) && Comparing(part)
    requires Fills(row, full) && MeaningAll(kind, conditions, row, order) != Unknown
    ensures MeaningAll(kind, conditions, full, order) == MeaningAll(kind, conditions, row, order)
    decreases conditions, 0
  {
    if Meaning(conditions[0], row, order) != Unknown {
      KnownStaysKnown(conditions[0], row, full, order);
    }
    if |conditions| > 1 && MeaningAll(kind, conditions[1..], row, order) != Unknown {
      AllKnownStay(kind, conditions[1..], row, full, order);
    }
  }

  // ---------- The text ----------

  /** A value that renders as NULL is sent as a NULL parameter. */
  function Rendered(value: string): Option<string> {
    if value == "NULL" then None else Some(value)
  }

  function Bind(values: seq<string>): seq<Option<string>> {
    seq(|values|, i requires 0 <= i < |values| => Rendered(values[i]))
  }

  /** The parameter a placeholder stands for; $1 is the first. */
  function Param(params: seq<Option<string>>, mark: nat): Option<string> {
    if 1 <= mark <= |params| then params[mark - 1] else None
  }

  function Picked(params: seq<Option<string>>, marks: seq<nat>): seq<Option<string>> {
    seq(|marks|, i requires 0 <= i < |marks| => Param(params, marks[i]))
  }

  function Evaluate(sql: Sql, row: Row, params: seq<Option<string>>, order: Order): Truth
    decreases sql, 1
  {
    match sql
    case Compare(column, comparison, mark) => Compared(order, comparison, At(row, column), Param(params, mark))
    case OneOf(column, marks) => AnyEqual(order, At(row, column), Picked(params, marks))
    case Null(column) => if At(row, column).None? then True else False
    case Negation(negated) => Negate(Evaluate(negated, row, params, order))
    case Chain(link, parts) => EvaluateAll(link, parts, row, params, order)
  }

  function EvaluateAll(link: GroupKind, parts: seq<Sql>, row: Row, params: seq<Option<string>>, order: Order): Truth
    decreases parts, 0
  {
    if parts == [] then Unknown
    else
      var first := Evaluate(parts[0], row, params, order);
      if |parts| == 1 then first else Link(link, first, EvaluateAll(link, parts[1..], row, params, order))
  }

  /** The text parsed and evaluated by the database. */
  function TextMeaning(text: string, row: Row, params: seq<Option<string>>, order: Order): Option<Truth> {
    var (sql, rest) :- ReadCondition(text);
    if rest == "" then Some(Evaluate(sql, row, params, order)) else None
  }

  // ---------- They agree ----------

  /** The parameters numbered from `k` are the given values. */
  ghost predicate Holds(params: seq<Option<string>>, k: nat, values: seq<string>) {
    k >= 1 && forall i | 0 <= i < |values| :: Param(params, k + i) == Some(values[i])
  }

  lemma {:induction false} ShapeMeans(c: Condition, k: nat, row: Row, params: seq<Option<string>>, order: Order)
    requires Printable(c) && Holds(params, k, Params(c))
    ensures Evaluate(Shape(c, k), row, params, order) == Meaning(c, row, order)
    decreases c, 1
  {
    match c
    case Group(kind, conditions) => ShapesMean(kind, conditions, k, row, params, order);
    case Real(_, _, value) => assert Param(params, k + 0) == Some(Params(c)[0]);
    case In(column, values) => assert Picked(params, From(k, |values|)) == Values(values);
    case Not(negated) => ShapeMeans(negated.value, k, row, params, order);
    case IsNull(_) =>
  }

  lemma {:induction false} ShapesMean(kind: GroupKind, conditions: seq<Condition>, k: nat,
                                      row: Row, params: seq<Option<string>>, order: Order)
    requires conditions != [] && (forall part | part in conditions :: Printable(part))
    requires Holds(params, k, AllParams(conditions))
    ensures EvaluateAll(if |conditions| == 1 then AND else kind, Shapes(conditions, k), row, params, order)
            == MeaningAll(kind, conditions, row, order)
    decreases conditions, 0
  {
    var first, others := conditions[0], conditions[1..];
    var values := AllParams(conditions);
    assert forall i | 0 <= i < Arity(first) :: values[i] == Params(first)[i];
    ShapeMeans(first, k, row, params, order);
    if |conditions| > 1 {
      forall i | 0 <= i < |AllParams(others)|
        ensures Param(params, k + Arity(first) + i) == Some(AllParams(others)[i])
      {
        assert values[Arity(first) + i] == AllParams(others)[i];
        assert Param(params, k + (Arity(first) + i)) == Some(values[Arity(first) + i]);
      }
      ShapesMean(kind, others, k + Arity(first), row, params, order);
      assert Shapes(conditions, k)[1..] == Shapes(others, k + Arity(first));
      SingleLink(kind, others, k + Arity(first), row, params, order);
    }
  }

  /** The link of a single part does not matter. */
  lemma SingleLink(kind: GroupKind, conditions: seq<Condition>, k: nat, row: Row, params: seq<Option<string>>, order: Order)
    requires forall part | part in conditions :: Printable(part)
    ensures |conditions| == 1 ==>
              EvaluateAll(AND, Shapes(conditions, k), row, params, order)
              == EvaluateAll(kind, Shapes(conditions, k), row, params, order)
  {}

  /** Whatever values stand before and after, the text of a condition over its bound parameters means the tree. */
  lemma TextMeansTheTree(c: Condition, before: seq<string>, after: seq<string>, row: Row, order: Order)
    requires Printable(c) && "NULL" !in Params(c)
    ensures TextMeaning(Text(c, |before| + 1), row, Bind(before + Params(c) + after), order)
            == Some(Meaning(c, row, order))
  {
    var k, params := |before| + 1, Bind(before + Params(c) + after);
    ReadsWhatWasPut(c, k, "");
    forall i | 0 <= i < |Params(c)| ensures Param(params, k + i) == Some(Params(c)[i]) {
      assert (before + Params(c) + after)[k + i - 1] == Params(c)[i];
    }
    ShapeMeans(c, k, row, params, order);
  }

  // ---------- The placeholders ----------

  function Marks(sql: Sql): seq<nat> {
    match sql
    case Compare(_, _, mark) => [mark]
    case OneOf(_, marks) => marks
    case Null(_) => []
    case Negation(negated) => Marks(negated)
    case Chain(_, parts) => AllMarks(parts)
  }

  function AllMarks(parts: seq<Sql>): seq<nat> {
    if parts == [] then [] else Marks(parts[0]) + AllMarks(parts[1..])
  }

  /** The placeholders read from left to right are k, k+1, ..., one for each parameter. */
  lemma {:induction false} MarksAreConsecutive(c: Condition, k: nat)
    requires Printable(c)
    ensures Marks(Shape(c, k)) == From(k, Arity(c))
    decreases c, 1
  {
    match c
    case Group(_, conditions) => AllMarksAreConsecutive(conditions, k);
    case Not(negated) => MarksAreConsecutive(negated.value, k);
    case Real(_, _, _) => assert From(k, 1) == [k];
    case In(_, _) =>
    case IsNull(_) =>
  }

  lemma {:induction false} AllMarksAreConsecutive(conditions: seq<Condition>, k: nat)
    requires forall part | part in conditions :: Printable(part)
    ensures AllMarks(Shapes(conditions, k)) == From(k, |AllParams(conditions)|)
    decreases conditions, 0
  {
    if conditions != [] {
      MarksAreConsecutive(conditions[0], k);
      AllMarksAreConsecutive(conditions[1..], k + Arity(conditions[0]));
      assert Shapes(conditions, k)[1..] == Shapes(conditions[1..], k + Arity(conditions[0]));
    }
  }
}
