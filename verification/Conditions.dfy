/** WHERE conditions: the parametrised text, the parameter list, comparison, and what both mean to the database. */
module Conditions {
  import opened Wrappers
  import opened Texts

  type Column = name: string | IsName(name) && name != "NOT" witness "name"

  const INVALID: Column := "Invalid"

  datatype GroupKind = AND | OR

  datatype Comparison = Equal | Less | Greater | NotEqual | NotLess | NotGreater

  /** Values are kept as the text they are rendered to. */
  datatype Condition =
    | Group(kind: GroupKind, conditions: seq<Condition>)
    | Real(column: Column, comparison: Comparison, value: string)
    | In(column: Column, values: seq<string>)
    | Not(negated: Option<Condition>)
    | IsNull(column: Column)

  function KindText(kind: GroupKind): string {
    match kind
    case AND => " AND "
    case OR => " OR "
  }

  function Sign(comparison: Comparison): string {
    match comparison
    case Equal => "="
    case Less => "<"
    case Greater => ">"
    case NotEqual => "!="
    case NotLess => ">="
    case NotGreater => "<="
  }

  /** Serialising throws on anything else. */
  predicate Printable(c: Condition) {
    match c
    case Group(_, conditions) => conditions != [] && forall part | part in conditions :: Printable(part)
    case In(_, values) => values != []
    case Not(negated) => negated.Some? && Printable(negated.value)
    case IsNull(column) => column != INVALID
    case Real(_, _, _) => true
  }

  /** The condition and all conditions inside it. */
  function Within(c: Condition): set<Condition>
    decreases c, 1
  {
    {c} + match c
          case Group(_, conditions) => AllWithin(conditions)
          case Not(negated) => if negated.Some? then Within(negated.value) else {}
          case _ => {}
  }

  function AllWithin(conditions: seq<Condition>): set<Condition>
    decreases conditions, 0
  {
    if conditions == [] then {} else Within(conditions[0]) + AllWithin(conditions[1..])
  }

  /** A condition is refused exactly when an empty group, an empty list of values, a negation of nothing or a NULL test of
      the invalid column stands anywhere in it. */
  lemma {:induction false} PrintableIff(c: Condition)
    ensures Printable(c) <==>
              forall part | part in Within(c) ::
                && (part.Group? ==> part.conditions != []) && (part.In? ==> part.values != [])
                && (part.Not? ==> part.negated.Some?) && part != IsNull(INVALID)
    decreases c, 1
  {
    match c
    case Group(_, conditions) =>
      AllPrintableIff(conditions);
      assert c in Within(c) && forall part | part in AllWithin(conditions) :: part in Within(c);
    case Not(negated) =>
      if negated.Some? {
        PrintableIff(negated.value);
        assert forall part | part in Within(negated.value) :: part in Within(c);
      }
      assert c in Within(c);
    case _ => assert Within(c) == {c};
  }

  lemma {:induction false} AllPrintableIff(conditions: seq<Condition>)
    ensures (forall condition | condition in conditions :: Printable(condition)) <==>
              forall part | part in AllWithin(conditions) ::
                && (part.Group? ==> part.conditions != []) && (part.In? ==> part.values != [])
                && (part.Not? ==> part.negated.Some?) && part != IsNull(INVALID)
    decreases conditions, 0
  {
    if conditions != [] {
      PrintableIff(conditions[0]);
      AllPrintableIff(conditions[1..]);
      assert forall condition :: condition in conditions <==> condition == conditions[0] || condition in conditions[1..];
    }
  }

  // ---------- The parameters ----------

  function Params(c: Condition): seq<string>
    decreases c, 1
  {
    match c
    case Group(_, conditions) => AllParams(conditions)
    case Real(_, _, value) => [value]
    case In(_, values) => values
    case Not(negated) => if negated.Some? then Params(negated.value) else []
    case IsNull(_) => []
  }

  function AllParams(conditions: seq<Condition>): seq<string>
    decreases conditions, 0
  {
    if conditions == [] then [] else Params(conditions[0]) + AllParams(conditions[1..])
  }

  function Arity(c: Condition): nat {
    |Params(c)|
  }

  // ---------- The text ----------

  /** The text of a condition whose placeholders start at `k`, followed by `rest`. */
  function Put(c: Condition, k: nat, rest: string): string
    requires Printable(c)
    decreases c, 1
  {
    match c
    case Group(kind, conditions) => "(" + PutParts(kind, conditions, k, rest)
    case Real(column, comparison, _) => "(" + (column + (" " + (Sign(comparison) + (" " + PutMark(k, ")" + rest)))))
    case In(column, values) => "(" + (column + (" IN (" + PutMarks(k, |values|, "))" + rest)))
    case Not(negated) => "(NOT " + Put(negated.value, k, ")" + rest)
    case IsNull(column) => "(" + (column + (" IS NULL)" + rest))
  }

  function PutParts(kind: GroupKind, conditions: seq<Condition>, k: nat, rest: string): string
    requires conditions != [] && forall part | part in conditions :: Printable(part)
    decreases conditions, 0
  {
    if |conditions| == 1 then
      Put(conditions[0], k, ")" + rest)
    else
      Put(conditions[0], k,
          KindText(kind) + PutParts(kind, conditions[1..], k + Arity(conditions[0]), rest))
  }

  function Text(c: Condition, k: nat): string
    requires Printable(c)
  {
    Put(c, k, "")
  }

  // ---------- What the database parses ----------

  datatype Sql =
    | Compare(column: string, comparison: Comparison, mark: nat)
    | OneOf(column: string, marks: seq<nat>)
    | Null(column: string)
    | Negation(negated: Sql)
    | Chain(link: GroupKind, parts: seq<Sql>)

  function ReadSign(s: string): Option<(Comparison, string)> {
    if |s| < 2 then None
    else if s[1] == '=' then
      match s[0]
      case '!' => Some((NotEqual, s[2..]))
      case '>' => Some((NotLess, s[2..]))
      case '<' => Some((NotGreater, s[2..]))
      case _ => None
    else
      match s[0]
      case '=' => Some((Equal, s[1..]))
      case '<' => Some((Less, s[1..]))
      case '>' => Some((Greater, s[1..]))
      case _ => None
  }

  function ReadKind(s: string): Option<(GroupKind, string)> {
    if |s| < 2 then None
    else if s[1] == 'A' then
      var rest :- Eat(s, " AND ");
      Some((AND, rest))
    else
      var rest :- Eat(s, " OR ");
      Some((OR, rest))
  }

  /** The rest of a condition on the named column. */
  function ReadOnColumn(name: string, s: string): (read: Option<(Sql, string)>)
    ensures read.Some? ==> |read.value.1| < |s|
  {
    if |s| < 3 then None
    else if s[1] == 'I' && s[2] == 'S' then
      var rest :- Eat(s, " IS NULL)");
      Some((Null(name), rest))
    else if s[1] == 'I' then
      var listed :- Eat(s, " IN (");
      var (marks, closed) := ReadMarks(listed);
      var rest :- Eat(closed, "))");
      Some((OneOf(name, marks), rest))
    else
      var signed :- Eat(s, " ");
      var (comparison, spaced) :- ReadSign(signed);
      var marked :- Eat(spaced, " ");
      var (mark, closed) :- ReadMark(marked);
      var rest :- Eat(closed, ")");
      Some((Compare(name, comparison, mark), rest))
  }

  /** A condition at the start of the text, and what follows it. */
  function ReadCondition(s: string): (read: Option<(Sql, string)>)
    ensures read.Some? ==> |read.value.1| < |s|
    decreases |s|, 0
  {
    if s == "" || s[0] != '(' then None
    else if |s| > 1 && s[1] == '(' then
      var (link, parts, rest) :- ReadParts(s[1..], None);
      Some((Chain(if link.Some? then link.value else AND, parts), rest))
    else
      var (name, after) := ReadName(s[1..]);
      if name == "NOT" then
        var inner :- Eat(after, " ");
        var (negated, closed) :- ReadCondition(inner);
        var rest :- Eat(closed, ")");
        Some((Negation(negated), rest))
      else
        ReadOnColumn(name, after)
  }

  /** The parts of a group, all joined by the same link, and what follows its closing bracket. */
  function ReadParts(s: string, link: Option<GroupKind>): (read: Option<(Option<GroupKind>, seq<Sql>, string)>)
    ensures read.Some? ==> |read.value.2| < |s|
    decreases |s|, 1
  {
    var (part, after) :- ReadCondition(s);
    if after != "" && after[0] == ')' then
      Some((link, [part], after[1..]))
    else
      var (next, others) :- ReadKind(after);
      if link.Some? && link.value != next then None
      else
        var (same, parts, rest) :- ReadParts(others, Some(next));
        Some((same, [part] + parts, rest))
  }

  /** What a condition with placeholders from `k` should parse to. A single-part group shows no link. */
  function Shape(c: Condition, k: nat): Sql
    requires Printable(c)
    decreases c, 1
  {
    match c
    case Group(kind, conditions) => Chain(if |conditions| == 1 then AND else kind, Shapes(conditions, k))
    case Real(column, comparison, _) => Compare(column, comparison, k)
    case In(column, values) => OneOf(column, From(k, |values|))
    case Not(negated) => Negation(Shape(negated.value, k))
    case IsNull(column) => Null(column)
  }

  function Shapes(conditions: seq<Condition>, k: nat): (shapes: seq<Sql>)
    requires forall part | part in conditions :: Printable(part)
    ensures |shapes| == |conditions|
    decreases conditions, 0
  {
    if conditions == [] then []
    else [Shape(conditions[0], k)] + Shapes(conditions[1..], k + Arity(conditions[0]))
  }

  lemma PutOpens(c: Condition, k: nat, rest: string)
    requires Printable(c)
    ensures var s := Put(c, k, rest); s != "" && s[0] == '('
    decreases c
  {}

  lemma ReadsSign(comparison: Comparison, rest: string)
    requires rest != "" && rest[0] == ' '
    ensures ReadSign(Sign(comparison) + rest) == Some((comparison, rest))
  {
    var s := Sign(comparison) + rest;
    assert s[|Sign(comparison)|..] == rest;
  }

  lemma ReadsReal(column: Column, comparison: Comparison, k: nat, rest: string)
    ensures ReadOnColumn(column, " " + (Sign(comparison) + (" " + PutMark(k, ")" + rest))))
            == Some((Compare(column, comparison, k), rest))
  {
    var marked := PutMark(k, ")" + rest);
    var signed := Sign(comparison) + (" " + marked);
    assert (" " + signed)[1] != 'I';
    EatOwn(" ", signed);
    ReadsSign(comparison, " " + marked);
    EatOwn(" ", marked);
    ReadOwnMark(k, ")" + rest);
    EatOwn(")", rest);
  }

  lemma ReadsIn(column: Column, k: nat, n: nat, rest: string)
    ensures ReadOnColumn(column, " IN (" + PutMarks(k, n, "))" + rest)) == Some((OneOf(column, From(k, n)), rest))
  {
    var marks := PutMarks(k, n, "))" + rest);
    EatOwn(" IN (", marks);
    ReadOwnMarks(k, n, "))" + rest);
    EatOwn("))", rest);
  }

  lemma ReadsNamed(column: Column, after: string)
    requires after != "" && after[0] == ' '
    ensures ReadCondition("(" + (column + after)) == ReadOnColumn(column, after)
  {
    var s := "(" + (column + after);
    assert s[1..] == column + after;
    assert s[1] == column[0] && NameChar(column[0]);
    ReadOwnName(column, after);
  }

  /** The database reads back exactly the tree that was printed, with its placeholders in order. */
  lemma {:induction false} ReadsWhatWasPut(c: Condition, k: nat, rest: string)
    requires Printable(c)
    ensures ReadCondition(Put(c, k, rest)) == Some((Shape(c, k), rest))
    decreases c, 1
  {
    match c
    case Group(kind, conditions) =>
      ReadsGroup(kind, conditions, k, rest);
    case Real(column, comparison, _) =>
      ReadsNamed(column, " " + (Sign(comparison) + (" " + PutMark(k, ")" + rest))));
      ReadsReal(column, comparison, k, rest);
    case In(column, values) =>
      ReadsNamed(column, " IN (" + PutMarks(k, |values|, "))" + rest));
      ReadsIn(column, k, |values|, rest);
    case Not(negated) =>
      var inner := Put(negated.value, k, ")" + rest);
      ReadsWhatWasPut(negated.value, k, ")" + rest);
      ReadsNegated(inner);
      EatOwn(")", rest);
    case IsNull(column) =>
      ReadsNamed(column, " IS NULL)" + rest);
      EatOwn(" IS NULL)", rest);
  }

  lemma ReadsNegated(inner: string)
    requires ReadCondition(inner).Some?
    ensures ReadCondition("(NOT " + inner) ==
            var (negated, closed) := ReadCondition(inner).value;
            if Eat(closed, ")").Some? then Some((Negation(negated), Eat(closed, ")").value)) else None
  {
    var s := "(NOT " + inner;
    assert s[1..] == "NOT" + (" " + inner);
    ReadOwnName("NOT", " " + inner);
    EatOwn(" ", inner);
  }

  lemma {:induction false} ReadsGroup(kind: GroupKind, conditions: seq<Condition>, k: nat, rest: string)
    requires Printable(Group(kind, conditions))
    ensures ReadCondition(Put(Group(kind, conditions), k, rest)) == Some((Shape(Group(kind, conditions), k), rest))
    decreases conditions, 1
  {
    var s, parts := Put(Group(kind, conditions), k, rest), PutParts(kind, conditions, k, rest);
    assert s[1..] == parts;
    assert parts != "" && parts[0] == '(' by {
      if |conditions| == 1 {
        PutOpens(conditions[0], k, ")" + rest);
      } else {
        PutOpens(conditions[0], k, KindText(kind) + PutParts(kind, conditions[1..], k + Arity(conditions[0]), rest));
      }
    }
    ReadsParts(kind, conditions, k, rest, None);
  }

  lemma {:induction false} ReadsParts(kind: GroupKind, conditions: seq<Condition>, k: nat, rest: string, link: Option<GroupKind>)
    requires conditions != [] && forall part | part in conditions :: Printable(part)
    requires link.Some? ==> link.value == kind
    ensures ReadParts(PutParts(kind, conditions, k, rest), link)
            == Some((if |conditions| == 1 then link else Some(kind), Shapes(conditions, k), rest))
    decreases conditions, 0
  {
    hide ReadCondition, Put, Shape, Printable, Params;
    if |conditions| == 1 {
      ReadsWhatWasPut(conditions[0], k, ")" + rest);
      assert (")" + rest)[1..] == rest;
      assert Shapes(conditions, k) == [Shape(conditions[0], k)];
    } else {
      var others := PutParts(kind, conditions[1..], k + Arity(conditions[0]), rest);
      ReadsWhatWasPut(conditions[0], k, KindText(kind) + others);
      EatOwn(KindText(kind), others);
      ReadsParts(kind, conditions[1..], k + Arity(conditions[0]), rest, Some(kind));
    }
  }
}
