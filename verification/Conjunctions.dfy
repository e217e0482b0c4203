/** Conditions joined by AND: which values of a column they accept, and when one conjunction implies another. */
module Conjunctions {
  import opened Wrappers
  import opened Conditions
  import opened Meanings
  import E = Equality

  /** A condition on one column. */
  type Part = c: Condition | c.Real? || c.In? || c.IsNull? witness IsNull(INVALID)

  /** Joined by AND alone, without negations: what the application builds. */
  predicate Conjunctive(c: Condition) {
    Printable(c) && E.AndOnly(c) && E.NotFree(c)
  }

  /** The conditions joined, from left to right. */
  function Parts(c: Condition): (parts: seq<Part>)
    requires Conjunctive(c)
    ensures forall part | part in parts :: Printable(part)
    decreases c, 1
  {
    if c.Group? then AllParts(c.conditions) else [c]
  }

  function AllParts(conditions: seq<Condition>): (parts: seq<Part>)
    requires forall part | part in conditions :: Conjunctive(part)
    ensures forall part | part in parts :: Printable(part)
    decreases conditions, 0
  {
    if conditions == [] then [] else Parts(conditions[0]) + AllParts(conditions[1..])
  }

  lemma {:induction false} PartsOfFlat(parts: seq<Part>)
    requires forall part | part in parts :: Printable(part)
    ensures forall part: Part | part in parts :: Conjunctive(part)
    ensures AllParts(parts) == parts
  {
    if parts != [] {
      PartsOfFlat(parts[1..]);
      assert Parts(parts[0]) == [parts[0]];
    }
  }

  /** A group without groups inside is the conjunction of its parts. */
  lemma FlatConjunction(parts: seq<Part>)
    requires parts != [] && forall part | part in parts :: Printable(part)
    ensures Conjunctive(Group(AND, parts)) && Parts(Group(AND, parts)) == parts
  {
    PartsOfFlat(parts);
  }

  /** The condition is true of a column with this value; None is NULL. */
  predicate Accepts(part: Part, value: Option<string>, order: Order)
  {
    match part
    case Real(_, comparison, right) => value.Some? && order(comparison, value.value, right)
    case In(_, values) => value.Some? && exists right | right in values :: order(Equal, value.value, right)
    case IsNull(_) => value.None?
  }

  /** All conditions are true of the row. */
  predicate Met(parts: seq<Part>, row: Row, order: Order)
  {
    forall part | part in parts :: Accepts(part, At(row, part.column), order)
  }

  /** The conditions on this column are true of this value. */
  predicate MetAt(parts: seq<Part>, column: string, value: Option<string>, order: Order)
  {
    forall part | part in parts && part.column == column :: Accepts(part, value, order)
  }

  /** No value of some column meets the conditions on it. */
  ghost predicate Unmeetable(parts: seq<Part>, order: Order)
  {
    exists part | part in parts :: forall value :: !MetAt(parts, part.column, value, order)
  }

  // ---------- A conjunction holds when its parts do ----------

  lemma AcceptsIsMeaning(part: Part, row: Row, order: Order)
    requires Printable(part)
    ensures Accepts(part, At(row, part.column), order) <==> Meaning(part, row, order) == True
  {
    if part.In? {
      if At(row, part.column).Some? {
        AnyEqualFinds(order, At(row, part.column).value, part.values);
      } else {
        NoneEqualsNull(order, Values(part.values));
      }
    }
  }

  lemma {:induction false} NoneEqualsNull(order: Order, values: seq<Option<string>>)
    ensures AnyEqual(order, None, values) != True
  {
    if values != [] {
      NoneEqualsNull(order, values[1..]);
    }
  }

  lemma {:induction false} MeaningIsMet(c: Condition, row: Row, order: Order)
    requires Conjunctive(c)
    ensures Meaning(c, row, order) == True <==> Met(Parts(c), row, order)
    decreases c, 1
  {
    if c.Group? {
      AllMeaningsAreMet(c.conditions, row, order);
    } else {
      AcceptsIsMeaning(c, row, order);
    }
  }

  lemma {:induction false} AllMeaningsAreMet(conditions: seq<Condition>, row: Row, order: Order)
    requires conditions != [] && forall part | part in conditions :: Conjunctive(part) && Printable(part)
    ensures MeaningAll(AND, conditions, row, order) == True <==> Met(AllParts(conditions), row, order)
    decreases conditions, 0
  {
    MeaningIsMet(conditions[0], row, order);
    MetConcat(Parts(conditions[0]), AllParts(conditions[1..]), row, order);
    if |conditions| > 1 {
      AllMeaningsAreMet(conditions[1..], row, order);
    }
  }

  lemma MetConcat(a: seq<Part>, b: seq<Part>, row: Row, order: Order)
    ensures Met(a + b, row, order) <==> Met(a, row, order) && Met(b, row, order)
  {
    hide Accepts;
    assert forall part :: part in a + b <==> part in a || part in b;
  }

  // ---------- When one conjunction implies another ----------

  /** Every row that meets the parts meets the others. */
  ghost predicate Implies(parts: seq<Part>, others: seq<Part>, order: Order)
  {
    forall row | Met(parts, row, order) :: Met(others, row, order)
  }

  /** Each of the others is true of every value that meets the parts on its column. */
  ghost predicate ImpliesByColumn(parts: seq<Part>, others: seq<Part>, order: Order)
  {
    forall other, value | other in others && MetAt(parts, other.column, value, order) :: Accepts(other, value, order)
  }

  ghost function Meeting(parts: seq<Part>, column: string, order: Order): (value: Option<string>)
    requires exists value :: MetAt(parts, column, value, order)
    ensures MetAt(parts, column, value, order)
  {
    var value :| MetAt(parts, column, value, order);
    value
  }

  /** A row meeting the parts, with the given value in the given column. */
  lemma MeetingRow(parts: seq<Part>, column: string, value: Option<string>, order: Order) returns (row: Row)
    requires !Unmeetable(parts, order) && MetAt(parts, column, value, order)
    ensures Met(parts, row, order) && At(row, column) == value
  {
    hide Accepts;
    var columns := (set part | part in parts :: part.column) + {column};
    assert forall c | c in columns && c != column :: exists v :: MetAt(parts, c, v, order);
    row := map c | c in columns :: if c == column then value else Meeting(parts, c, order);
    forall part | part in parts ensures Accepts(part, At(row, part.column), order) {
      assert part.column in columns;
      assert MetAt(parts, part.column, At(row, part.column), order);
    }
  }

  /** One conjunction implies another if and only if it can never hold or does so column by column. */
  lemma ImpliesIff(parts: seq<Part>, others: seq<Part>, order: Order)
    ensures Implies(parts, others, order) <==> Unmeetable(parts, order) || ImpliesByColumn(parts, others, order)
  {
    hide Accepts;
    forall row, column | Met(parts, row, order) ensures MetAt(parts, column, At(row, column), order) {}
    if Implies(parts, others, order) && !Unmeetable(parts, order) {
      forall other, value | other in others && MetAt(parts, other.column, value, order) ensures Accepts(other, value, order) {
        var row := MeetingRow(parts, other.column, value, order);
        assert Met(others, row, order);
      }
    }
  }

  // ---------- In a database ----------

  /** The orders a database can have: a total order of the values, and all comparisons read off it. */
  ghost predicate Lawful(order: Order) {
    && (forall a, b :: order(Equal, a, b) <==> a == b)
    && (forall a, b :: order(NotEqual, a, b) <==> a != b)
    && (forall a, b :: order(Greater, a, b) <==> order(Less, b, a))
    && (forall a, b :: order(NotLess, a, b) <==> !order(Less, a, b))
    && (forall a, b :: order(NotGreater, a, b) <==> !order(Less, b, a))
    && (forall a, b :: (order(Less, a, b) || order(Less, b, a)) <==> a != b)
    && (forall a, b :: !(order(Less, a, b) && order(Less, b, a)))
    && (forall a, b, c | order(Less, a, b) && order(Less, b, c) :: order(Less, a, c))
  }

  /** Two different values asked of one column cannot be met. */
  lemma TwoValuesUnmeetable(parts: seq<Part>, column: Column, one: string, two: string, order: Order)
    requires Lawful(order)
    requires Real(column, Equal, one) in parts && Real(column, Equal, two) in parts && one != two
    ensures Unmeetable(parts, order)
  {
    var first, second := Real(column, Equal, one), Real(column, Equal, two);
    assert first.column == second.column == column;
    forall value ensures !MetAt(parts, column, value, order) {
      assert !(Accepts(first, value, order) && Accepts(second, value, order));
    }
  }

  /** Nor can NULL and anything else. */
  lemma NullAndValueUnmeetable(parts: seq<Part>, absent: Part, other: Part, order: Order)
    requires absent in parts && other in parts
    requires absent.IsNull? && !other.IsNull? && absent.column == other.column
    ensures Unmeetable(parts, order)
  {
    forall value ensures !MetAt(parts, absent.column, value, order) {
      assert !(Accepts(absent, value, order) && Accepts(other, value, order));
    }
  }

  /** Comparisons that include equality are met by the value itself. */
  lemma MetByItsValue(part: Part, order: Order)
    requires Lawful(order) && part.Real? && part.comparison in {Equal, NotLess, NotGreater}
    ensures Accepts(part, Some(part.value), order)
  {}

  /** Strings compared character by character. */
  predicate Before(a: string, b: string) {
    b != "" && (a == "" || a[0] < b[0] || (a[0] == b[0] && Before(a[1..], b[1..])))
  }

  const TEXT_ORDER: Order := (comparison: Comparison, a: string, b: string) =>
    match comparison
    case Equal => a == b
    case NotEqual => a != b
    case Less => Before(a, b)
    case Greater => Before(b, a)
    case NotLess => !Before(a, b)
    case NotGreater => !Before(b, a)

  lemma {:induction false} BeforeIsTotal(a: string, b: string)
    ensures (Before(a, b) || Before(b, a)) <==> a != b
    ensures !(Before(a, b) && Before(b, a))
  {
    if a != "" && b != "" && a[0] == b[0] {
      BeforeIsTotal(a[1..], b[1..]);
      assert a == [a[0]] + a[1..] && b == [b[0]] + b[1..];
    }
  }

  lemma {:induction false} BeforeIsTransitive(a: string, b: string, c: string)
    requires Before(a, b) && Before(b, c)
    ensures Before(a, c)
  {
    if a != "" && a[0] == b[0] && b[0] == c[0] {
      BeforeIsTransitive(a[1..], b[1..], c[1..]);
    }
  }

  /** There is such an order. */
  lemma TextOrderIsLawful()
    ensures Lawful(TEXT_ORDER)
  {
    forall a: string, b: string
      ensures (Before(a, b) || Before(b, a)) <==> a != b
      ensures !(Before(a, b) && Before(b, a))
    {
      BeforeIsTotal(a, b);
    }
    forall a, b, c | Before(a, b) && Before(b, c) ensures Before(a, c) {
      BeforeIsTransitive(a, b, c);
    }
  }
}
