/** ToString and CollectParams as the conditions run them, on a shared placeholder counter and parameter list. */
module Serializing {
  import opened Wrappers
  import opened Texts
  import opened Conditions
  import opened Meanings

  /** The placeholder counter: starts at $1. */
  class Placeholders {
    var count: nat

    constructor ()
      ensures count == 1
    {
      count := 1;
    }

    method Get() returns (mark: string)
      ensures mark == PutMark(count, "")
    {
      mark := "$" + Decimal(count);
      assert Decimal(count) + "" == Decimal(count);
    }

    method Next()
      modifies this
      ensures count == old(count) + 1
    {
      count := count + 1;
    }
  }

  class ValueCollector {
    var values: seq<string>

    constructor ()
      ensures values == []
    {
      values := [];
    }

    method Append(value: string)
      modifies this
      ensures values == old(values) + [value]
    {
      values := values + [value];
    }

    /** Moves every value to the other collector. */
    method ExtractTo(to: ValueCollector)
      requires to != this
      modifies this, to
      ensures to.values == old(to.values) + old(values) && values == []
    {
      to.values := to.values + values;
      values := [];
    }

    /** Hands the values to the database and keeps none: a second call sends no parameter. */
    method ToPqxx() returns (params: seq<Option<string>>)
      modifies this
      ensures params == Bind(old(values)) && values == []
    {
      params := [];
      while values != []
        invariant params + Bind(values) == Bind(old(values))
        decreases |values|
      {
        params := params + [if values[0] == "NULL" then None else Some(values[0])];
        assert Bind(values) == [Rendered(values[0])] + Bind(values[1..]);
        values := values[1..];
      }
      assert Bind(values) == [];
    }
  }

  // ---------- Appending ----------

  lemma Assoc(a: string, b: string, c: string)
    ensures a + (b + c) == (a + b) + c
  {}

  lemma MarkAppends(k: nat, rest: string)
    ensures PutMark(k, rest) == PutMark(k, "") + rest
  {
    assert Decimal(k) + "" == Decimal(k);
    Assoc("$", Decimal(k), rest);
  }

  lemma {:induction false} MarksAppend(k: nat, n: nat, rest: string)
    ensures PutMarks(k, n, rest) == PutMarks(k, n, "") + rest
    decreases n
  {
    if n == 1 {
      MarkAppends(k, rest);
    } else if n > 1 {
      var tail := PutMarks(k + 1, n - 1, "");
      MarksAppend(k + 1, n - 1, rest);
      MarkAppends(k, ", " + (tail + rest));
      MarkAppends(k, ", " + tail);
      Assoc(", ", tail, rest);
      Assoc(PutMark(k, ""), ", " + tail, rest);
    }
  }

  lemma {:induction false} PutAppends(c: Condition, k: nat, rest: string)
    requires Printable(c)
    ensures Put(c, k, rest) == Text(c, k) + rest
    decreases c, 1
  {
    assert ")" + "" == ")" && "))" + "" == "))" && " IS NULL)" + "" == " IS NULL)";
    match c
    case Group(kind, conditions) =>
      PartsAppend(kind, conditions, k, rest);
      Assoc("(", PutParts(kind, conditions, k, ""), rest);
    case Real(column, comparison, _) =>
      MarkAppends(k, ")" + rest);
      MarkAppends(k, ")");
      var mark := PutMark(k, ")");
      Assoc(PutMark(k, ""), ")", rest);
      Assoc(" ", mark, rest);
      Assoc(Sign(comparison), " " + mark, rest);
      Assoc(" ", Sign(comparison) + (" " + mark), rest);
      Assoc(column, " " + (Sign(comparison) + (" " + mark)), rest);
      Assoc("(", column + (" " + (Sign(comparison) + (" " + mark))), rest);
    case In(column, values) =>
      MarksAppend(k, |values|, "))" + rest);
      MarksAppend(k, |values|, "))");
      var marks := PutMarks(k, |values|, "))");
      Assoc(PutMarks(k, |values|, ""), "))", rest);
      Assoc(" IN (", marks, rest);
      Assoc(column, " IN (" + marks, rest);
      Assoc("(", column + (" IN (" + marks), rest);
    case Not(negated) =>
      PutAppends(negated.value, k, ")" + rest);
      PutAppends(negated.value, k, ")");
      Assoc(Text(negated.value, k), ")", rest);
      Assoc("(NOT ", Text(negated.value, k) + ")", rest);
    case IsNull(column) =>
      Assoc(column, " IS NULL)", rest);
      Assoc("(", column + " IS NULL)", rest);
  }

  lemma {:induction false} PartsAppend(kind: GroupKind, conditions: seq<Condition>, k: nat, rest: string)
    requires conditions != [] && forall part | part in conditions :: Printable(part)
    ensures PutParts(kind, conditions, k, rest) == PutParts(kind, conditions, k, "") + rest
    decreases conditions, 0
  {
    var first := Text(conditions[0], k);
    assert ")" + "" == ")";
    if |conditions| == 1 {
      PutAppends(conditions[0], k, ")" + rest);
      PutAppends(conditions[0], k, ")");
      Assoc(first, ")", rest);
    } else {
      var next := k + Arity(conditions[0]);
      var tail := PutParts(kind, conditions[1..], next, "");
      PartsAppend(kind, conditions[1..], next, rest);
      PutAppends(conditions[0], k, KindText(kind) + (tail + rest));
      PutAppends(conditions[0], k, KindText(kind) + tail);
      Assoc(KindText(kind), tail, rest);
      Assoc(first, KindText(kind) + tail, rest);
    }
  }

  // ---------- ToString ----------

  /** Prints the condition and leaves the counter after its placeholders; fails where the source throws. */
  method ToString(c: Condition, placeholders: Placeholders) returns (text: Option<string>)
    modifies placeholders
    ensures text.Some? <==> Printable(c)
    ensures text.Some? ==> text.value == Text(c, old(placeholders.count))
    ensures text.Some? ==> placeholders.count == old(placeholders.count) + Arity(c)
    decreases c
  {
    assert ")" + "" == ")" && "))" + "" == "))" && " IS NULL)" + "" == " IS NULL)";
    match c
    case Group(kind, conditions) =>
      text := GroupToString(c, kind, conditions, placeholders);
    case Real(column, comparison, _) =>
      var mark := placeholders.Get();
      MarkAppends(placeholders.count, ")");
      text := Some("(" + (column + (" " + (Sign(comparison) + (" " + (mark + ")"))))));
      placeholders.Next();
    case In(column, values) =>
      if values == [] {
        return None;
      }
      var marks := MarksToString(|values|, placeholders);
      MarksAppend(old(placeholders.count), |values|, "))");
      text := Some("(" + (column + (" IN (" + (marks + "))"))));
    case Not(negated) =>
      if negated.None? {
        return None;
      }
      text := ToString(negated.value, placeholders);
      if text.Some? {
        PutAppends(negated.value, old(placeholders.count), ")");
        text := Some("(NOT " + (text.value + ")"));
      }
    case IsNull(column) =>
      text := if column == INVALID then None else Some("(" + (column + " IS NULL)"));
  }

  method MarksToString(n: nat, placeholders: Placeholders) returns (marks: string)
    requires n > 0
    modifies placeholders
    ensures marks == PutMarks(old(placeholders.count), n, "")
    ensures placeholders.count == old(placeholders.count) + n
  {
    marks := placeholders.Get();
    placeholders.Next();
    for i := 1 to n
      invariant placeholders.count == old(placeholders.count) + i
      invariant marks == PutMarks(old(placeholders.count), i, "")
    {
      var mark := placeholders.Get();
      MarksSnoc(old(placeholders.count), i);
      marks := marks + ", " + mark;
      placeholders.Next();
    }
  }

  lemma MoreMarks(k: nat, n: nat)
    requires n > 0
    ensures PutMarks(k, n + 1, "") == (PutMark(k, "") + ", ") + PutMarks(k + 1, n, "")
  {
    var tail := PutMarks(k + 1, n, "");
    MarkAppends(k, ", " + tail);
    Assoc(PutMark(k, ""), ", ", tail);
  }

  lemma {:induction false} MarksSnoc(k: nat, n: nat)
    requires n > 0
    ensures PutMarks(k, n + 1, "") == PutMarks(k, n, "") + ", " + PutMark(k + n, "")
    decreases n
  {
    MoreMarks(k, n);
    if n > 1 {
      MoreMarks(k, n - 1);
      MarksSnoc(k + 1, n - 1);
      hide PutMarks, PutMark;
      var tail := PutMarks(k + 1, n - 1, "");
      Assoc(PutMark(k, "") + ", ", tail + ", ", PutMark(k + n, ""));
      Assoc(PutMark(k, "") + ", ", tail, ", ");
    }
  }

  /** What is still to print of a group after its first `i` parts. */
  ghost predicate HalfPrinted(kind: GroupKind, conditions: seq<Condition>, k: nat, i: nat, count: nat, result: string) {
    && i < |conditions|
    && (forall part | part in conditions[..i] :: Printable(part))
    && count + |AllParams(conditions[i..])| == k + |AllParams(conditions)|
    && ((forall part | part in conditions :: Printable(part)) ==>
          result + PutParts(kind, conditions[i..], count, "") == "(" + PutParts(kind, conditions, k, ""))
  }

  lemma OnePartMore(kind: GroupKind, conditions: seq<Condition>, k: nat, i: nat, count: nat, result: string)
    requires HalfPrinted(kind, conditions, k, i, count, result)
    requires i + 1 < |conditions| && Printable(conditions[i])
    ensures HalfPrinted(kind, conditions, k, i + 1, count + Arity(conditions[i]),
                        result + Text(conditions[i], count) + KindText(kind))
  {
    var part := conditions[i];
    assert conditions[i..][1..] == conditions[i + 1..];
    assert conditions[..i + 1] == conditions[..i] + [part];
    if forall part | part in conditions :: Printable(part) {
      var tail := PutParts(kind, conditions[i + 1..], count + Arity(part), "");
      PutAppends(part, count, KindText(kind) + tail);
      Assoc(result, Text(part, count), KindText(kind) + tail);
      Assoc(result + Text(part, count), KindText(kind), tail);
    }
  }

  lemma LastPart(kind: GroupKind, conditions: seq<Condition>, k: nat, count: nat, result: string)
    requires conditions != [] && HalfPrinted(kind, conditions, k, |conditions| - 1, count, result)
    ensures Printable(conditions[|conditions| - 1]) <==> Printable(Group(kind, conditions))
    ensures var last := conditions[|conditions| - 1];
            Printable(last) ==>
              && result + Text(last, count) + ")" == Text(Group(kind, conditions), k)
              && count + Arity(last) == k + Arity(Group(kind, conditions))
  {
    var n := |conditions| - 1;
    var last := conditions[n];
    assert conditions == conditions[..n] + [last];
    assert conditions[n..] == [last] && [last][1..] == [];
    assert AllParams([last]) == Params(last);
    if Printable(last) {
      assert ")" + "" == ")";
      PutAppends(last, count, ")");
      Assoc(result, Text(last, count), ")");
    }
  }

  method GroupToString(ghost c: Condition, kind: GroupKind, conditions: seq<Condition>, placeholders: Placeholders)
    returns (text: Option<string>)
    requires c == Group(kind, conditions)
    modifies placeholders
    ensures text.Some? <==> Printable(c)
    ensures text.Some? ==> text.value == Text(c, old(placeholders.count))
    ensures text.Some? ==> placeholders.count == old(placeholders.count) + Arity(c)
    decreases c, 0
  {
    if conditions == [] {
      return None;
    }
    ghost var k := placeholders.count;
    var result := "(";
    assert conditions[0..] == conditions && conditions[..0] == [];
    for i := 0 to |conditions| - 1
      invariant HalfPrinted(kind, conditions, k, i, placeholders.count, result)
    {
      ghost var count := placeholders.count;
      var part := ToString(conditions[i], placeholders);
      if part.None? {
        return None;
      }
      OnePartMore(kind, conditions, k, i, count, result);
      result := result + part.value + KindText(kind);
    }
    LastPart(kind, conditions, k, placeholders.count, result);
    var part := ToString(conditions[|conditions| - 1], placeholders);
    if part.Some? {
      text := Some(result + part.value + ")");
    } else {
      text := None;
    }
  }

  /** Appends the dynamic values in placeholder order. */
  method CollectParams(c: Condition, params: ValueCollector)
    modifies params
    ensures params.values == old(params.values) + Params(c)
    decreases c
  {
    match c
    case Group(_, conditions) =>
      for i := 0 to |conditions|
        invariant params.values + AllParams(conditions[i..]) == old(params.values) + Params(c)
      {
        assert conditions[i..][1..] == conditions[i + 1..];
        CollectParams(conditions[i], params);
      }
    case Real(_, _, value) =>
      params.Append(value);
    case In(_, values) =>
      for i := 0 to |values|
        invariant params.values == old(params.values) + values[..i]
      {
        params.Append(values[i]);
      }
    case Not(negated) =>
      if negated.Some? {
        CollectParams(negated.value, params);
      }
    case IsNull(_) =>
  }
}
