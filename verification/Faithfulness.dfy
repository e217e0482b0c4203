/** Values that render as NULL: on which conditions they change the rows selected, and where they do not. */
module Faithfulness {
  import opened Wrappers
  import opened Texts
  import opened Conditions
  import opened Meanings
  import opened Conjunctions

  /** The text means the tree on every row, in a database that orders values so. */
  ghost predicate Faithful(c: Condition, order: Order)
    requires Printable(c)
  {
    forall row :: TextMeaning(Text(c, 1), row, Bind(Params(c)), order) == Some(Meaning(c, row, order))
  }

  /** The rows selected by the text are those that meet the tree. */
  ghost predicate SelectsSame(c: Condition, order: Order)
    requires Printable(c)
  {
    forall row :: TextMeaning(Text(c, 1), row, Bind(Params(c)), order) == Some(True) <==> Meaning(c, row, order) == True
  }

  lemma NoNullIsFaithful(c: Condition, order: Order)
    requires Printable(c) && "NULL" !in Params(c)
    ensures Faithful(c, order) && SelectsSame(c, order)
  {
    assert [] + Params(c) + [] == Params(c);
    forall row ensures TextMeaning(Text(c, 1), row, Bind(Params(c)), order) == Some(Meaning(c, row, order)) {
      TextMeansTheTree(c, [], [], row, order);
    }
  }

  lemma TextEvaluates(c: Condition, row: Row, order: Order)
    requires Printable(c)
    ensures TextMeaning(Text(c, 1), row, Bind(Params(c)), order) == Some(Evaluate(Shape(c, 1), row, Bind(Params(c)), order))
  {
    ReadsWhatWasPut(c, 1, "");
  }

  // ---------- Conjunctions as sent ----------

  function WithoutNull(values: seq<string>): (rest: seq<string>)
    ensures forall value :: value in rest <==> value in values && value != "NULL"
  {
    if values == [] then []
    else (if values[0] == "NULL" then [] else [values[0]]) + WithoutNull(values[1..])
  }

  /** What is left of a condition once its NULL parameters can equal nothing; In without values is never true. */
  function AsSent(part: Part): (sent: Part)
    ensures sent.column == part.column
  {
    match part
    case Real(column, _, value) => if value == "NULL" then In(column, []) else part
    case In(column, values) => In(column, WithoutNull(values))
    case IsNull(_) => part
  }

  function AllAsSent(parts: seq<Part>): (sent: seq<Part>)
    ensures forall part | part in parts :: AsSent(part) in sent
    ensures forall other | other in sent :: exists part :: part in parts && AsSent(part) == other
  {
    if parts == [] then [] else [AsSent(parts[0])] + AllAsSent(parts[1..])
  }

  /** The parameters numbered from `k` are the values as rendered. */
  ghost predicate BoundFrom(params: seq<Option<string>>, k: nat, values: seq<string>) {
    forall i | 0 <= i < |values| :: Param(params, k + i) == Rendered(values[i])
  }

  lemma BoundSplits(params: seq<Option<string>>, k: nat, one: seq<string>, two: seq<string>)
    requires BoundFrom(params, k, one + two)
    ensures BoundFrom(params, k, one) && BoundFrom(params, k + |one|, two)
  {
    forall i | 0 <= i < |one| ensures Param(params, k + i) == Rendered(one[i]) {
      assert (one + two)[i] == one[i];
    }
    forall i | 0 <= i < |two| ensures Param(params, k + |one| + i) == Rendered(two[i]) {
      assert (one + two)[|one| + i] == two[i];
      assert Param(params, k + (|one| + i)) == Rendered((one + two)[|one| + i]);
    }
  }

  lemma ShapesSplit(conditions: seq<Condition>, k: nat, row: Row, params: seq<Option<string>>, order: Order)
    requires conditions != [] && forall part | part in conditions :: Printable(part)
    ensures var first := Evaluate(Shape(conditions[0], k), row, params, order);
            EvaluateAll(AND, Shapes(conditions, k), row, params, order) ==
            if |conditions| == 1 then first
            else Link(AND, first, EvaluateAll(AND, Shapes(conditions[1..], k + Arity(conditions[0])), row, params, order))
  {
    assert Shapes(conditions, k)[1..] == Shapes(conditions[1..], k + Arity(conditions[0]));
  }

  lemma {:induction false} AnyBoundEqual(order: Order, left: string, values: seq<string>)
    ensures AnyEqual(order, Some(left), Bind(values)) == True
            <==> exists value | value in WithoutNull(values) :: order(Equal, left, value)
  {
    if values == [] {
      assert Bind(values) == [];
    } else {
      assert Bind(values)[0] == Rendered(values[0]) && Bind(values)[1..] == Bind(values[1..]);
      AnyBoundEqual(order, left, values[1..]);
      assert forall value :: value in WithoutNull(values)
                       <==> value in WithoutNull(values[1..]) || (value == values[0] && value != "NULL");
    }
  }

  /** One part of the text is true exactly where the part as sent is. */
  lemma PartAsSent(part: Part, k: nat, row: Row, params: seq<Option<string>>, order: Order)
    requires Printable(part) && BoundFrom(params, k, Params(part))
    ensures Evaluate(Shape(part, k), row, params, order) == True <==> Accepts(AsSent(part), At(row, part.column), order)
  {
    match part
    case Real(_, _, value) => assert Param(params, k + 0) == Rendered(Params(part)[0]);
    case In(column, values) =>
      assert Picked(params, From(k, |values|)) == Bind(values);
      if At(row, column).Some? {
        AnyBoundEqual(order, At(row, column).value, values);
      } else {
        NoneEqualsNull(order, Bind(values));
      }
    case IsNull(_) =>
  }

  /** The text is true exactly where all parts as sent are. */
  lemma {:induction false} TextIsMet(c: Condition, k: nat, row: Row, params: seq<Option<string>>, order: Order)
    requires Conjunctive(c) && BoundFrom(params, k, Params(c))
    ensures Evaluate(Shape(c, k), row, params, order) == True <==> Met(AllAsSent(Parts(c)), row, order)
    decreases c, 1
  {
    hide AsSent, Accepts;
    if c.Group? {
      AllTextIsMet(c.conditions, k, row, params, order);
    } else {
      PartAsSent(c, k, row, params, order);
      assert AllAsSent([c]) == [AsSent(c)];
    }
  }

  lemma {:induction false} AllTextIsMet(conditions: seq<Condition>, k: nat, row: Row, params: seq<Option<string>>, order: Order)
    requires conditions != [] && (forall part | part in conditions :: Conjunctive(part) && Printable(part))
    requires BoundFrom(params, k, AllParams(conditions))
    ensures EvaluateAll(AND, Shapes(conditions, k), row, params, order) == True
            <==> Met(AllAsSent(AllParts(conditions)), row, order)
    decreases conditions, 0
  {
    hide Evaluate, EvaluateAll, Shape, Shapes, Parts, AllParts, Params, AllParams, AllAsSent, BoundFrom, Met, Conjunctive;
    var first, others := conditions[0], conditions[1..];
    AllPartsSplit(conditions, row, order);
    BoundSplits(params, k, Params(first), AllParams(others));
    ShapesSplit(conditions, k, row, params, order);
    TextIsMet(first, k, row, params, order);
    if others != [] {
      AllTextIsMet(others, k + Arity(first), row, params, order);
    }
  }

  lemma AllPartsSplit(conditions: seq<Condition>, row: Row, order: Order)
    requires conditions != [] && (forall part | part in conditions :: Conjunctive(part))
    ensures AllParams(conditions) == Params(conditions[0]) + AllParams(conditions[1..])
    ensures Met(AllAsSent(AllParts(conditions)), row, order) <==>
              && Met(AllAsSent(Parts(conditions[0])), row, order)
              && (|conditions| > 1 ==> Met(AllAsSent(AllParts(conditions[1..])), row, order))
  {
    hide AsSent, Accepts, Met, Conjunctive;
    var one, two := Parts(conditions[0]), AllParts(conditions[1..]);
    SentConcat(one, two);
    MetConcat(AllAsSent(one), AllAsSent(two), row, order);
    if |conditions| == 1 {
      assert Met([], row, order) by { NothingIsMet(row, order); }
    }
  }

  lemma NothingIsMet(row: Row, order: Order)
    ensures Met([], row, order)
  {}

  lemma {:induction false} SentConcat(a: seq<Part>, b: seq<Part>)
    ensures AllAsSent(a + b) == AllAsSent(a) + AllAsSent(b)
  {
    if a == [] {
      assert a + b == b;
    } else {
      assert (a + b)[1..] == a[1..] + b;
      SentConcat(a[1..], b);
    }
  }

  /** A condition as sent is true of no more values. */
  lemma SentIsStronger(part: Part, value: Option<string>, order: Order)
    requires Accepts(AsSent(part), value, order)
    ensures Accepts(part, value, order)
  {}

  // ---------- Where NULL matters ----------

  /** The text of a conjunction selects the rows that meet the tree if and only if no row does, or every part as sent is
      true of each value that meets the parts on its column. */
  lemma SelectsSameIff(c: Condition, order: Order)
    requires Conjunctive(c)
    ensures SelectsSame(c, order) <==>
              Unmeetable(Parts(c), order) || ImpliesByColumn(Parts(c), AllAsSent(Parts(c)), order)
  {
    var parts := Parts(c);
    var sent := AllAsSent(parts);
    hide Parts, AllAsSent, AsSent, Accepts, Shape, Text, Params, Meaning, Evaluate;
    forall row
      ensures TextMeaning(Text(c, 1), row, Bind(Params(c)), order) == Some(True) <==> Met(sent, row, order)
      ensures Meaning(c, row, order) == True <==> Met(parts, row, order)
      ensures Met(sent, row, order) ==> Met(parts, row, order)
    {
      TextEvaluates(c, row, order);
      TextIsMet(c, 1, row, Bind(Params(c)), order);
      MeaningIsMet(c, row, order);
      if Met(sent, row, order) {
        forall part | part in parts ensures Accepts(part, At(row, part.column), order) {
          assert AsSent(part) in sent;
          SentIsStronger(part, At(row, part.column), order);
        }
      }
    }
    ImpliesIff(parts, sent, order);
  }

  lemma {:induction false} NullInSomePart(c: Condition)
    requires Conjunctive(c)
    ensures "NULL" in Params(c) <==> exists part :: part in Parts(c) && "NULL" in Params(part)
    decreases c, 1
  {
    if c.Group? {
      NullInSomeParts(c.conditions);
    } else {
      assert c in Parts(c);
    }
  }

  lemma {:induction false} NullInSomeParts(conditions: seq<Condition>)
    requires forall part | part in conditions :: Conjunctive(part)
    ensures "NULL" in AllParams(conditions) <==> exists part :: part in AllParts(conditions) && "NULL" in Params(part)
    decreases conditions, 0
  {
    if conditions != [] {
      NullInSomePart(conditions[0]);
      NullInSomeParts(conditions[1..]);
      var one, two := Parts(conditions[0]), AllParts(conditions[1..]);
      assert forall part :: part in one + two <==> part in one || part in two;
    }
  }

  /** Comparisons and IS NULL tests, alone or joined by AND. */
  predicate Comparisons(c: Condition)
    requires Conjunctive(c)
  {
    forall part | part in Parts(c) :: !part.In?
  }

  /** Comparisons joined by AND select the right rows if and only if none of their values renders as NULL, or no value of
      some column meets the comparisons on it. */
  lemma ComparisonsFaithfulIff(c: Condition, order: Order)
    requires Conjunctive(c) && Comparisons(c)
    ensures SelectsSame(c, order) <==> "NULL" !in Params(c) || Unmeetable(Parts(c), order)
  {
    hide Conjunctive, Parts, AllAsSent, AsSent, Accepts, SelectsSame, Params, Unmeetable;
    NullInSomePart(c);
    SelectsSameIff(c, order);
    if "NULL" !in Params(c) {
      ConjunctiveIsPrintable(c);
      NoNullIsFaithful(c, order);
    } else if ImpliesByColumn(Parts(c), AllAsSent(Parts(c)), order) {
      var part :| part in Parts(c) && "NULL" in Params(part);
      assert AsSent(part) in AllAsSent(Parts(c));
      NullIsNeverTrue(Parts(c), part, order);
    }
  }

  /** A comparison sent with NULL accepts nothing, so that all values must fail elsewhere. */
  lemma NullIsNeverTrue(parts: seq<Part>, part: Part, order: Order)
    requires part in parts && !part.In? && "NULL" in Params(part)
    requires forall value | MetAt(parts, part.column, value, order) :: Accepts(AsSent(part), value, order)
    ensures Unmeetable(parts, order)
  {
    forall value ensures !Accepts(AsSent(part), value, order) {}
  }

  lemma ConjunctiveIsPrintable(c: Condition)
    requires Conjunctive(c)
    ensures Printable(c)
  {}

  /** In particular, when every column is compared once, with something that some value meets: exactly without NULL. */
  lemma ComparedOnceIff(c: Condition, order: Order)
    requires Conjunctive(c) && Comparisons(c)
    requires forall i, j | 0 <= i < j < |Parts(c)| :: Parts(c)[i].column != Parts(c)[j].column
    requires forall part | part in Parts(c) :: exists value :: Accepts(part, value, order)
    ensures SelectsSame(c, order) <==> "NULL" !in Params(c)
  {
    ComparisonsFaithfulIff(c, order);
    var parts := Parts(c);
    hide Accepts, Conjunctive, Parts;
    forall part | part in parts ensures exists value :: MetAt(parts, part.column, value, order) {
      var value :| Accepts(part, value, order);
      assert MetAt(parts, part.column, value, order);
    }
  }

  /** So it is in every database for columns compared once by =, >= or <= or tested for NULL. */
  lemma ComparedOnceLawfully(c: Condition, order: Order)
    requires Conjunctive(c) && Comparisons(c) && Lawful(order)
    requires forall i, j | 0 <= i < j < |Parts(c)| :: Parts(c)[i].column != Parts(c)[j].column
    requires forall part | part in Parts(c) && part.Real? :: part.comparison in {Equal, NotLess, NotGreater}
    ensures SelectsSame(c, order) <==> "NULL" !in Params(c)
  {
    hide Conjunctive, Parts, Lawful, Accepts, SelectsSame, Params;
    forall part | part in Parts(c) ensures exists value :: Accepts(part, value, order) {
      MetAlone(part, order);
    }
    ComparedOnceIff(c, order);
  }

  lemma MetAlone(part: Part, order: Order)
    requires Lawful(order) && !part.In? && (part.Real? ==> part.comparison in {Equal, NotLess, NotGreater})
    ensures exists value :: Accepts(part, value, order)
  {
    if part.Real? {
      MetByItsValue(part, order);
    } else {
      assert Accepts(part, None, order);
    }
  }

  /** A list of values selects the right rows, and means the same on every row, if and only if it is without NULL. */
  lemma InFaithfulIff(column: Column, values: seq<string>, order: Order)
    requires values != [] && forall a, b :: order(Equal, a, b) <==> a == b
    ensures SelectsSame(In(column, values), order) <==> "NULL" !in values
    ensures Faithful(In(column, values), order) <==> "NULL" !in values
  {
    var part: Part := In(column, values);
    if "NULL" in values {
      var row: Row := map[column := Some("NULL")];
      TextEvaluates(part, row, order);
      PartAsSent(part, 1, row, Bind(values), order);
      AcceptsIsMeaning(part, row, order);
      assert order(Equal, "NULL", "NULL");
    } else {
      NoNullIsFaithful(part, order);
    }
  }

  /** Two values asked of one column at once: nothing is selected, whatever else is sent as NULL. */
  lemma NullMayNotMatter(column: Column, order: Order)
    requires Lawful(order)
    ensures var c := Group(AND, [Real(column, Equal, "x"), Real(column, Equal, "y"), Real(column, Equal, "NULL")]);
            Conjunctive(c) && "NULL" in Params(c) && SelectsSame(c, order)
  {
    var one, two, three := Real(column, Equal, "x"), Real(column, Equal, "y"), Real(column, Equal, "NULL");
    var c := Group(AND, [one, two, three]);
    FlatConjunction([one, two, three]);
    NullInSomePart(c);
    assert three in Parts(c) && Params(three) == ["NULL"];
    hide Conjunctive, Parts, Params, SelectsSame, Unmeetable;
    TwoValuesUnmeetable(Parts(c), column, "x", "y", order);
    ComparisonsFaithfulIff(c, order);
  }

  /** Such a value may be masked: here the second part decides, whatever the first makes of NULL. */
  lemma NullMayBeMasked(column: Column)
    ensures var c := Group(AND, [In(column, ["NULL", "a"]), In(column, ["a"])]);
            Printable(c) && "NULL" in Params(c) && forall order :: Faithful(c, order)
  {
    var one, two := In(column, ["NULL", "a"]), In(column, ["a"]);
    var parts := [one, two];
    var c := Group(AND, parts);
    assert parts[1..] == [two];
    assert AllParams(parts) == Params(one) + AllParams([two]) && AllParams([two]) == Params(two) + AllParams([two][1..]);
    assert Params(c) == ["NULL", "a", "a"];
    forall row: Row, order: Order ensures TextMeaning(Text(c, 1), row, Bind(Params(c)), order) == Some(Meaning(c, row, order)) {
      TextEvaluates(c, row, order);
      MaskedMeansSame(column, row, order);
    }
  }

  lemma MaskedMeansSame(column: Column, row: Row, order: Order)
    ensures var c := Group(AND, [In(column, ["NULL", "a"]), In(column, ["a"])]);
            Printable(c) && Evaluate(Shape(c, 1), row, Bind(["NULL", "a", "a"]), order) == Meaning(c, row, order)
  {
    var one, two := In(column, ["NULL", "a"]), In(column, ["a"]);
    var parts, left := [one, two], At(row, column);
    var c := Group(AND, parts);
    assert parts[1..] == [two];
    MaskedTree(one, two, left, row, order);
    MaskedText(one, two, left, row, order);
  }

  /** With `a` for what column = a gives, both parts of the tree. */
  lemma MaskedTree(one: Condition, two: Condition, left: Option<string>, row: Row, order: Order)
    requires one.In? && two == In(one.column, ["a"]) && one.values == ["NULL", "a"] && left == At(row, one.column)
    ensures Meaning(Group(AND, [one, two]), row, order) == Compared(order, Equal, left, Some("a"))
  {
    var parts := [one, two];
    assert parts[1..] == [two];
    assert MeaningAll(AND, parts, row, order) == Link(AND, Meaning(one, row, order), MeaningAll(AND, [two], row, order));
    assert Values(["a"]) == [Some("a")] && Values(["NULL", "a"]) == [Some("NULL"), Some("a")];
    EqualsOne(order, left);
    EqualsEither(order, left, Some("NULL"));
    assert MeaningAll(AND, [two], row, order) == Meaning(two, row, order) == Compared(order, Equal, left, Some("a"));
    assert Meaning(one, row, order) == AnyEqual(order, left, [Some("NULL"), Some("a")]);
  }

  lemma MaskedText(one: Condition, two: Condition, left: Option<string>, row: Row, order: Order)
    requires one.In? && two == In(one.column, ["a"]) && one.values == ["NULL", "a"] && left == At(row, one.column)
    ensures Evaluate(Shape(Group(AND, [one, two]), 1), row, Bind(["NULL", "a", "a"]), order)
            == Compared(order, Equal, left, Some("a"))
  {
    var parts, params := [one, two], Bind(["NULL", "a", "a"]);
    assert params == [None, Some("a"), Some("a")];
    assert parts[1..] == [two];
    var first, second := OneOf(one.column, From(1, 2)), OneOf(one.column, From(3, 1));
    assert Shapes([two], 3) == [second] + Shapes([two][1..], 4);
    assert Shapes(parts, 1) == [first] + Shapes([two], 3);
    assert Shapes(parts, 1) == [first, second] && [first, second][1..] == [second];
    assert Picked(params, From(1, 2)) == [None, Some("a")] && Picked(params, From(3, 1)) == [Some("a")];
    EqualsOne(order, left);
    EqualsEither(order, left, None);
    assert EvaluateAll(AND, [first, second], row, params, order)
           == Link(AND, Evaluate(first, row, params, order), EvaluateAll(AND, [second], row, params, order));
    assert EvaluateAll(AND, [second], row, params, order) == Evaluate(second, row, params, order);
    assert Evaluate(first, row, params, order) == AnyEqual(order, left, [None, Some("a")]);
  }

  lemma EqualsOne(order: Order, left: Option<string>)
    ensures AnyEqual(order, left, [Some("a")]) == Compared(order, Equal, left, Some("a"))
  {
    assert [Some("a")][1..] == [];
    assert AnyEqual(order, left, [Some("a")]) == Link(OR, Compared(order, Equal, left, Some("a")), AnyEqual(order, left, []));
  }

  lemma EqualsEither(order: Order, left: Option<string>, other: Option<string>)
    ensures AnyEqual(order, left, [other, Some("a")])
            == Link(OR, Compared(order, Equal, left, other), Compared(order, Equal, left, Some("a")))
  {
    assert [other, Some("a")][1..] == [Some("a")];
    EqualsOne(order, left);
  }
}
