/** Equals of the conditions, and when it coincides with printing the same text. */
module Equality {
  import opened Wrappers
  import opened Texts
  import opened Conditions

  /** As the conditions compare themselves: a group ignores its AND or OR, and a negation compares its argument
      with that argument's own part. */
  predicate Equals(a: Condition, b: Condition)
    decreases b, 1
  {
    match a
    case Group(_, conditions) => b.Group? && AllEqual(conditions, b.conditions)
    case Real(column, comparison, _) => b.Real? && comparison == b.comparison && column == b.column
    case In(column, values) => b.In? && column == b.column && |values| == |b.values|
    case Not(_) => b.Not? && b.negated.Some? && Equals(b, b.negated.value)
    case IsNull(column) => b.IsNull? && column == b.column
  }

  predicate AllEqual(a: seq<Condition>, b: seq<Condition>)
    decreases b, 0
  {
    |a| == |b| && (a == [] || (Equals(a[0], b[0]) && AllEqual(a[1..], b[1..])))
  }

  predicate NotFree(c: Condition) {
    match c
    case Group(_, conditions) => forall part | part in conditions :: NotFree(part)
    case Not(_) => false
    case _ => true
  }

  predicate AndOnly(c: Condition) {
    match c
    case Group(kind, conditions) => kind == AND && forall part | part in conditions :: AndOnly(part)
    case Not(negated) => negated.Some? ==> AndOnly(negated.value)
    case _ => true
  }

  /** Groups that print a link print the same one. */
  predicate LinksAgree(a: Condition, b: Condition)
    decreases a, 1
  {
    a.Group? && b.Group? ==>
      && (|a.conditions| > 1 ==> a.kind == b.kind)
      && AllLinksAgree(a.conditions, b.conditions)
  }

  predicate AllLinksAgree(a: seq<Condition>, b: seq<Condition>)
    decreases a, 0
  {
    a != [] && b != [] ==> LinksAgree(a[0], b[0]) && AllLinksAgree(a[1..], b[1..])
  }

  lemma {:induction false} AndOnlyLinksAgree(a: Condition, b: Condition)
    requires AndOnly(a) && AndOnly(b)
    ensures LinksAgree(a, b)
    decreases a, 1
  {
    if a.Group? && b.Group? {
      AllAndOnlyLinksAgree(a.conditions, b.conditions);
    }
  }

  lemma {:induction false} AllAndOnlyLinksAgree(a: seq<Condition>, b: seq<Condition>)
    requires (forall part | part in a :: AndOnly(part)) && (forall part | part in b :: AndOnly(part))
    ensures AllLinksAgree(a, b)
    decreases a, 0
  {
    if a != [] && b != [] {
      AndOnlyLinksAgree(a[0], b[0]);
      AllAndOnlyLinksAgree(a[1..], b[1..]);
    }
  }

  // ---------- Equal conditions print the same text ----------

  lemma {:induction false} EqualPrintsSame(a: Condition, b: Condition, k: nat, rest: string)
    requires Printable(a) && Printable(b) && NotFree(a)
    requires Equals(a, b) && LinksAgree(a, b)
    ensures Arity(a) == Arity(b) && Put(a, k, rest) == Put(b, k, rest)
    decreases a, 1
  {
    if a.Group? {
      PartsPrintSame(a.kind, b.kind, a.conditions, b.conditions, k, rest);
    }
  }

  lemma {:induction false} PartsPrintSame(one: GroupKind, two: GroupKind, a: seq<Condition>, b: seq<Condition>,
                                          k: nat, rest: string)
    requires a != [] && |a| == |b| && (|a| > 1 ==> one == two)
    requires (forall part | part in a :: Printable(part) && NotFree(part)) && (forall part | part in b :: Printable(part))
    requires AllEqual(a, b) && AllLinksAgree(a, b)
    ensures |AllParams(a)| == |AllParams(b)| && PutParts(one, a, k, rest) == PutParts(two, b, k, rest)
    decreases a, 0
  {
    hide KindText, Printable;
    if |a| == 1 {
      EqualPrintsSame(a[0], b[0], k, ")" + rest);
      assert a[1..] == [] && b[1..] == [];
    } else {
      PartsPrintSame(one, two, a[1..], b[1..], k + Arity(a[0]), rest);
      EqualPrintsSame(a[0], b[0], k, KindText(one) + PutParts(one, a[1..], k + Arity(a[0]), rest));
    }
  }

  // ---------- The same text comes from equal conditions ----------

  lemma {:induction false} ShapeTellsCondition(a: Condition, b: Condition, k: nat)
    requires Printable(a) && Printable(b) && NotFree(a)
    requires Shape(a, k) == Shape(b, k)
    ensures Equals(a, b) && LinksAgree(a, b) && Arity(a) == Arity(b)
    decreases a, 1
  {
    match a
    case Group(_, conditions) =>
      assert |Shapes(conditions, k)| == |Shapes(b.conditions, k)|;
      ShapesTellConditions(conditions, b.conditions, k);
    case In(_, values) => assert |From(k, |values|)| == |From(k, |b.values|)|;
    case _ =>
  }

  lemma {:induction false} ShapesTellConditions(a: seq<Condition>, b: seq<Condition>, k: nat)
    requires (forall part | part in a :: Printable(part) && NotFree(part)) && (forall part | part in b :: Printable(part))
    requires Shapes(a, k) == Shapes(b, k)
    ensures AllEqual(a, b) && AllLinksAgree(a, b) && |AllParams(a)| == |AllParams(b)|
    decreases a, 0
  {
    assert |Shapes(a, k)| == |Shapes(b, k)|;
    if a != [] {
      assert Shapes(a, k)[0] == Shapes(b, k)[0];
      ShapeTellsCondition(a[0], b[0], k);
      assert Shapes(a, k)[1..] == Shapes(a[1..], k + Arity(a[0]));
      assert Shapes(b, k)[1..] == Shapes(b[1..], k + Arity(b[0]));
      ShapesTellConditions(a[1..], b[1..], k + Arity(a[0]));
    }
  }

  /** Without negations, two conditions print the same text exactly when they are Equal and link their groups alike. */
  lemma SameTextIffEqual(a: Condition, b: Condition, k: nat)
    requires Printable(a) && Printable(b) && NotFree(a) && NotFree(b)
    ensures Text(a, k) == Text(b, k) <==> Equals(a, b) && LinksAgree(a, b)
  {
    if Text(a, k) == Text(b, k) {
      ReadsWhatWasPut(a, k, "");
      ReadsWhatWasPut(b, k, "");
      ShapeTellsCondition(a, b, k);
    } else if Equals(a, b) && LinksAgree(a, b) {
      EqualPrintsSame(a, b, k, "");
    }
  }

  // ---------- Where Equals and the text part ways ----------

  /** A condition with a negation in it is never Equal to anything, itself included. */
  lemma {:induction false} NegationNeverEquals(a: Condition, b: Condition)
    requires !NotFree(a)
    ensures !Equals(a, b)
    decreases b, 1
  {
    match a
    case Group(_, conditions) =>
      if b.Group? {
        NegationNeverAllEqual(conditions, b.conditions);
      }
    case Not(_) =>
      if b.Not? && b.negated.Some? {
        NegationNeverEquals(b, b.negated.value);
      }
    case _ =>
  }

  lemma {:induction false} NegationNeverAllEqual(a: seq<Condition>, b: seq<Condition>)
    requires exists part :: part in a && !NotFree(part)
    ensures !AllEqual(a, b)
    decreases b, 0
  {
    if |a| == |b| && a != [] {
      if !NotFree(a[0]) {
        NegationNeverEquals(a[0], b[0]);
      } else {
        var part :| part in a && !NotFree(part);
        assert part in a[1..];
        NegationNeverAllEqual(a[1..], b[1..]);
      }
    }
  }

  /** Nothing is Equal to a condition with a negation either. */
  lemma {:induction false} NegationEqualsNothing(a: Condition, b: Condition)
    requires NotFree(a) && !NotFree(b)
    ensures !Equals(a, b)
    decreases a, 1
  {
    if a.Group? && b.Group? {
      NegationAllEqualsNothing(a.conditions, b.conditions);
    }
  }

  lemma {:induction false} NegationAllEqualsNothing(a: seq<Condition>, b: seq<Condition>)
    requires (forall part | part in a :: NotFree(part)) && exists part :: part in b && !NotFree(part)
    ensures !AllEqual(a, b)
    decreases a, 0
  {
    if |a| == |b| && a != [] {
      if !NotFree(b[0]) {
        NegationEqualsNothing(a[0], b[0]);
      } else {
        var part :| part in b && !NotFree(part);
        assert part in b[1..];
        NegationAllEqualsNothing(a[1..], b[1..]);
      }
    }
  }

  lemma EqualsTellsNotFree(a: Condition, b: Condition)
    requires Equals(a, b)
    ensures NotFree(a) && NotFree(b)
  {
    if !NotFree(a) {
      NegationNeverEquals(a, b);
    } else if !NotFree(b) {
      NegationEqualsNothing(a, b);
    }
  }

  lemma {:induction false} EqualsReflexive(a: Condition)
    requires NotFree(a)
    ensures Equals(a, a)
    decreases a, 1
  {
    if a.Group? {
      AllEqualReflexive(a.conditions);
    }
  }

  lemma {:induction false} AllEqualReflexive(a: seq<Condition>)
    requires forall part | part in a :: NotFree(part)
    ensures AllEqual(a, a)
    decreases a, 0
  {
    if a != [] {
      EqualsReflexive(a[0]);
      AllEqualReflexive(a[1..]);
    }
  }

  lemma {:induction false} EqualsSymmetric(a: Condition, b: Condition)
    requires Equals(a, b) && NotFree(a)
    ensures Equals(b, a)
    decreases a, 1
  {
    if a.Group? {
      AllEqualSymmetric(a.conditions, b.conditions);
    }
  }

  lemma {:induction false} AllEqualSymmetric(a: seq<Condition>, b: seq<Condition>)
    requires AllEqual(a, b) && forall part | part in a :: NotFree(part)
    ensures AllEqual(b, a)
    decreases a, 0
  {
    if a != [] {
      EqualsSymmetric(a[0], b[0]);
      AllEqualSymmetric(a[1..], b[1..]);
    }
  }

  lemma {:induction false} EqualsTransitive(a: Condition, b: Condition, c: Condition)
    requires Equals(a, b) && Equals(b, c) && NotFree(a)
    ensures Equals(a, c)
    decreases a, 1
  {
    if a.Group? {
      AllEqualTransitive(a.conditions, b.conditions, c.conditions);
    }
  }

  lemma {:induction false} AllEqualTransitive(a: seq<Condition>, b: seq<Condition>, c: seq<Condition>)
    requires AllEqual(a, b) && AllEqual(b, c) && forall part | part in a :: NotFree(part)
    ensures AllEqual(a, c)
    decreases a, 0
  {
    if a != [] {
      EqualsTransitive(a[0], b[0], c[0]);
      AllEqualTransitive(a[1..], b[1..], c[1..]);
    }
  }

  /** Equals is symmetric and transitive, and reflexive exactly on the conditions without negations. */
  lemma EqualsIsAnEquivalence(a: Condition, b: Condition, c: Condition)
    ensures Equals(a, a) <==> NotFree(a)
    ensures Equals(a, b) ==> Equals(b, a)
    ensures Equals(a, b) && Equals(b, c) ==> Equals(a, c)
  {
    if NotFree(a) {
      EqualsReflexive(a);
    } else {
      NegationNeverEquals(a, a);
    }
    if Equals(a, b) {
      EqualsTellsNotFree(a, b);
      EqualsSymmetric(a, b);
      if Equals(b, c) {
        EqualsTransitive(a, b, c);
      }
    }
  }

  /** Equal conditions may print different texts: a group's AND or OR is not compared. */
  lemma EqualsIgnoresTheLink()
    ensures var column: Column := "name";
            var parts := [IsNull(column), IsNull(column)];
            var a, b := Group(AND, parts), Group(OR, parts);
            Printable(a) && Printable(b) && Equals(a, b) && Text(a, 1) != Text(b, 1)
  {
    var column: Column := "name";
    var parts := [IsNull(column), IsNull(column)];
    var a, b := Group(AND, parts), Group(OR, parts);
    assert parts[1..] == [IsNull(column)] && parts[1..][1..] == [];
    assert Equals(parts[0], parts[0]) && AllEqual(parts[1..][1..], parts[1..][1..]);
    assert AllEqual(parts[1..], parts[1..]) && AllEqual(parts, parts);
    SameTextIffEqual(a, b, 1);
  }
}
