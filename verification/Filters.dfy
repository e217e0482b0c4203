/** Filters sent by the front end, turned into a condition. */
module Filters {
  import opened Wrappers
  import opened Texts
  import opened Conditions
  import opened Meanings
  import opened Conjunctions
  import C = Conditions
  import E = Equality

  /** A filter's value: a string, with the timestamp it denotes if any, a number as rendered, or anything else. */
  datatype FilterValue = Text(text: string, timestamp: Option<string>) | Number(rendered: string) | OtherValue

  datatype Filter = Filter(key: Option<Column>, sign: string, value: FilterValue)

  /** There is no way to ask for inequality. */
  function ComparisonOf(sign: string): Option<Comparison> {
    if sign == "=" then Some(Equal)
    else if sign == "<" then Some(Less)
    else if sign == ">" then Some(Greater)
    else if sign == ">=" then Some(NotLess)
    else if sign == "<=" then Some(NotGreater)
    else None
  }

  predicate WellFormed(filter: Filter) {
    filter.key.Some? && ComparisonOf(filter.sign).Some? && !filter.value.OtherValue?
  }

  /** What one filter asks for; a string that is neither NULL nor a timestamp asks for nothing. */
  function ConditionOf(filter: Filter): Option<Part>
    requires WellFormed(filter)
  {
    var column, comparison := filter.key.value, ComparisonOf(filter.sign).value;
    match filter.value
    case Number(rendered) => Some(Real(column, comparison, rendered))
    case Text(text, timestamp) =>
      if comparison == Equal && text == "NULL" then Some(IsNull(column))
      else if timestamp.Some? then Some(Real(column, comparison, timestamp.value))
      else None
  }

  /** A sign is read as the comparison that prints as that sign, for every sign but that of inequality. */
  lemma SignsMatch(sign: string, comparison: Comparison)
    ensures ComparisonOf(sign) == Some(comparison) <==> comparison != NotEqual && sign == Sign(comparison)
  {}

  /** What the filters ask for, in their order. */
  function Kept(filters: seq<Filter>): seq<Part>
    requires forall filter | filter in filters :: WellFormed(filter)
  {
    if filters == [] then []
    else
      var last := filters[|filters| - 1];
      Kept(filters[..|filters| - 1]) + if ConditionOf(last).Some? then [ConditionOf(last).value] else []
  }

  /** None is an exception on the way: there is no condition at all. */
  method ParseFilters(filters: seq<Filter>) returns (condition: Option<Condition>)
    ensures condition.Some? <==> forall filter | filter in filters :: WellFormed(filter)
    ensures condition.Some? ==> condition.value == Group(AND, Kept(filters))
  {
    var conditions: seq<Part> := [];
    assert filters[..0] == [];
    for i := 0 to |filters|
      invariant forall filter | filter in filters[..i] :: WellFormed(filter)
      invariant conditions == Kept(filters[..i])
    {
      var filter := filters[i];
      var comparison := ComparisonOf(filter.sign);
      assert filters[..i + 1] == filters[..i] + [filter];
      if filter.key.None? || comparison.None? || filter.value.OtherValue? {
        assert filter in filters;
        return None;
      }
      assert filters[..i + 1][..i] == filters[..i];
      match filter.value
      case Text(text, timestamp) =>
        if comparison.value == Equal && text == "NULL" {
          conditions := conditions + [IsNull(filter.key.value)];
        } else if timestamp.Some? {
          conditions := conditions + [Real(filter.key.value, comparison.value, timestamp.value)];
        }
      case Number(rendered) =>
        conditions := conditions + [Real(filter.key.value, comparison.value, rendered)];
    }
    assert filters[..|filters|] == filters;
    condition := Some(Group(AND, conditions));
  }

  /** What a filter asks of a row, for any well-formed filter: the column compared with its value, a string being
      compared as the timestamp it denotes or else as it is. */
  predicate AsAsked(filter: Filter, row: Row, order: Order)
    requires WellFormed(filter)
  {
    var column, comparison := filter.key.value, ComparisonOf(filter.sign).value;
    match filter.value
    case Number(rendered) => Compared(order, comparison, At(row, column), Some(rendered)) == True
    case Text(text, timestamp) =>
      if comparison == Equal && text == "NULL" then At(row, column).None?
      else Compared(order, comparison, At(row, column), if timestamp.Some? then timestamp else Some(text)) == True
  }

  /** The filter is kept. A string that is neither NULL nor a timestamp is not. */
  predicate Asks(filter: Filter)
    requires WellFormed(filter)
  {
    ConditionOf(filter).Some?
  }

  /** The parts are what some filter asks for. */
  lemma {:induction false} KeptMembers(filters: seq<Filter>)
    requires forall filter | filter in filters :: WellFormed(filter)
    ensures forall part: Part :: part in Kept(filters) <==> exists filter :: filter in filters && ConditionOf(filter) == Some(part)
  {
    if filters != [] {
      var n := |filters| - 1;
      var earlier, last := filters[..n], filters[n];
      assert filters == earlier + [last];
      KeptMembers(earlier);
      hide WellFormed, ConditionOf;
      assert Kept(filters) == Kept(earlier) + if ConditionOf(last).Some? then [ConditionOf(last).value] else [];
      forall part: Part ensures part in Kept(filters) <==> exists filter :: filter in filters && ConditionOf(filter) == Some(part) {
        if part in Kept(earlier) {
          var filter :| filter in earlier && ConditionOf(filter) == Some(part);
          assert filter in filters;
        } else if Some(part) == ConditionOf(last) {
          assert last in filters;
        }
      }
    }
  }

  lemma PartPrintable(filter: Filter, part: Part)
    requires WellFormed(filter) && ConditionOf(filter) == Some(part)
    ensures Printable(part) <==> part != IsNull(INVALID)
  {}

  lemma KeptPrintable(filters: seq<Filter>)
    requires forall filter | filter in filters :: WellFormed(filter)
    ensures (forall part | part in Kept(filters) :: Printable(part))
            <==> forall filter | filter in filters :: ConditionOf(filter) != Some(IsNull(INVALID))
    ensures Kept(filters) == [] <==> forall filter | filter in filters :: !Asks(filter)
  {
    KeptMembers(filters);
    hide WellFormed, ConditionOf, Kept;
    forall part | part in Kept(filters) ensures Printable(part) <==> part != IsNull(INVALID) {
      var filter :| filter in filters && ConditionOf(filter) == Some(part);
      PartPrintable(filter, part);
    }
    if filter :| filter in filters && Asks(filter) {
      assert ConditionOf(filter).value in Kept(filters);
    }
    if Kept(filters) != [] {
      assert Kept(filters)[0] in Kept(filters);
    }
  }

  /** The condition that a filter stands for, kept or not. */
  function Wanted(filter: Filter): (part: Part)
    requires WellFormed(filter)
    ensures part.column == filter.key.value
  {
    var column, comparison := filter.key.value, ComparisonOf(filter.sign).value;
    match filter.value
    case Number(rendered) => Real(column, comparison, rendered)
    case Text(text, timestamp) =>
      if comparison == Equal && text == "NULL" then IsNull(column)
      else Real(column, comparison, if timestamp.Some? then timestamp.value else text)
  }

  lemma WantedIfKept(filter: Filter)
    requires WellFormed(filter)
    ensures Asks(filter) ==> ConditionOf(filter) == Some(Wanted(filter))
    ensures !Asks(filter) ==> Wanted(filter).Real?
  {}

  /** A row is as a filter asks when its column has a value that the condition accepts. */
  lemma AskedIsWanted(filter: Filter, row: Row, order: Order)
    requires WellFormed(filter)
    ensures AsAsked(filter, row, order) <==> Accepts(Wanted(filter), At(row, filter.key.value), order)
  {}

  /** The kept parts are those that the kept filters stand for. */
  lemma KeptAreWanted(filters: seq<Filter>)
    requires forall filter | filter in filters :: WellFormed(filter)
    ensures forall filter | filter in filters && Asks(filter) :: Wanted(filter) in Kept(filters)
    ensures forall part: Part | part in Kept(filters) ::
              exists filter :: filter in filters && Asks(filter) && Wanted(filter) == part
  {
    KeptMembers(filters);
    hide WellFormed, ConditionOf, Kept, Wanted;
    forall filter | filter in filters ensures Asks(filter) ==> ConditionOf(filter) == Some(Wanted(filter)) {
      WantedIfKept(filter);
    }
  }

  lemma KeptAreMet(filters: seq<Filter>, row: Row, order: Order)
    requires forall filter | filter in filters :: WellFormed(filter)
    ensures Met(Kept(filters), row, order) <==> forall filter | filter in filters && Asks(filter) :: AsAsked(filter, row, order)
  {
    KeptAreWanted(filters);
    hide WellFormed, Asks, Kept, Wanted, AsAsked, Accepts;
    forall filter | filter in filters
      ensures AsAsked(filter, row, order) <==> Accepts(Wanted(filter), At(row, Wanted(filter).column), order)
    {
      AskedIsWanted(filter, row, order);
    }
  }

  /** A row meets the condition exactly when it is as every kept filter asks; the condition is one the query cache can
      reuse. */
  lemma FiltersMeanAll(filters: seq<Filter>, row: Row, order: Order)
    requires (forall filter | filter in filters :: WellFormed(filter)) && Printable(Group(AND, Kept(filters)))
    ensures E.AndOnly(Group(AND, Kept(filters))) && E.NotFree(Group(AND, Kept(filters)))
    ensures Meaning(Group(AND, Kept(filters)), row, order) == True <==>
              forall filter | filter in filters && Asks(filter) :: AsAsked(filter, row, order)
  {
    FlatConjunction(Kept(filters));
    hide WellFormed, Asks, Kept, AsAsked, Met;
    MeaningIsMet(Group(AND, Kept(filters)), row, order);
    KeptAreMet(filters, row, order);
  }

  /** The rows that meet the condition are those the filters ask for. */
  ghost predicate MeansAsAsked(filters: seq<Filter>, order: Order)
    requires (forall filter | filter in filters :: WellFormed(filter)) && Printable(Group(AND, Kept(filters)))
  {
    forall row ::
      Meaning(Group(AND, Kept(filters)), row, order) == True <==> forall filter | filter in filters :: AsAsked(filter, row, order)
  }

  /** Every value that meets the kept parts on a column is as all filters on it ask. */
  ghost predicate KeptSayAll(filters: seq<Filter>, order: Order)
    requires forall filter | filter in filters :: WellFormed(filter)
  {
    forall filter, value | filter in filters && MetAt(Kept(filters), filter.key.value, value, order) ::
      Accepts(Wanted(filter), value, order)
  }

  /** In a database that orders values so, the condition means the filters as asked if and only if no row meets the kept
      ones, or on each column the kept ones say all that is asked. */
  lemma MeansAsAskedIff(filters: seq<Filter>, order: Order)
    requires (forall filter | filter in filters :: WellFormed(filter)) && Printable(Group(AND, Kept(filters)))
    ensures MeansAsAsked(filters, order) <==> Unmeetable(Kept(filters), order) || KeptSayAll(filters, order)
  {
    hide WellFormed, Asks, Kept, Wanted, AsAsked, Accepts, Met, MetAt, Unmeetable, Meaning, Printable;
    var asked := seq(|filters|, i requires 0 <= i < |filters| => Wanted(filters[i]));
    forall row
      ensures Meaning(Group(AND, Kept(filters)), row, order) == True <==> Met(Kept(filters), row, order)
      ensures (forall filter | filter in filters :: AsAsked(filter, row, order)) <==> Met(asked, row, order)
      ensures Met(asked, row, order) ==> Met(Kept(filters), row, order)
    {
      AskedAreMet(filters, asked, row, order);
      FiltersMeanAll(filters, row, order);
      KeptAreMet(filters, row, order);
    }
    SaysAll(filters, asked, order);
    ImpliesIff(Kept(filters), asked, order);
  }

  lemma AskedAreMet(filters: seq<Filter>, asked: seq<Part>, row: Row, order: Order)
    requires (forall filter | filter in filters :: WellFormed(filter)) && |asked| == |filters|
    requires forall i | 0 <= i < |filters| :: asked[i] == Wanted(filters[i])
    ensures (forall filter | filter in filters :: AsAsked(filter, row, order)) <==> Met(asked, row, order)
  {
    hide WellFormed, Wanted, AsAsked, Accepts;
    forall i | 0 <= i < |filters|
      ensures AsAsked(filters[i], row, order) <==> Accepts(asked[i], At(row, asked[i].column), order)
    {
      AskedIsWanted(filters[i], row, order);
    }
  }

  lemma SaysAll(filters: seq<Filter>, asked: seq<Part>, order: Order)
    requires (forall filter | filter in filters :: WellFormed(filter)) && |asked| == |filters|
    requires forall i | 0 <= i < |filters| :: asked[i] == Wanted(filters[i])
    ensures KeptSayAll(filters, order) <==> ImpliesByColumn(Kept(filters), asked, order)
  {
    hide WellFormed, Wanted, Kept, Accepts, MetAt;
    if KeptSayAll(filters, order) {
      forall i, value | 0 <= i < |filters| && MetAt(Kept(filters), asked[i].column, value, order)
        ensures Accepts(asked[i], value, order)
      {
        assert filters[i] in filters;
      }
    }
    forall filter | filter in filters ensures Wanted(filter) in asked {
      var i :| 0 <= i < |filters| && filters[i] == filter;
      assert asked[i] == Wanted(filter);
    }
  }

  // ---------- What that comes to ----------

  /** Dropped filters that kept ones say again are not missed. */
  lemma SaidAgainIsEnough(filters: seq<Filter>, order: Order)
    requires (forall filter | filter in filters :: WellFormed(filter)) && Printable(Group(AND, Kept(filters)))
    requires forall filter | filter in filters :: Wanted(filter) in Kept(filters)
    ensures MeansAsAsked(filters, order)
  {
    hide WellFormed, Kept, Accepts, Meaning, AsAsked, Wanted;
    assert KeptSayAll(filters, order);
    MeansAsAskedIff(filters, order);
  }

  /** A dropped filter on a column without kept ones is missed if and only if any row meets the kept ones. */
  lemma DroppedAloneIsLost(filters: seq<Filter>, dropped: Filter, order: Order)
    requires (forall filter | filter in filters :: WellFormed(filter)) && Printable(Group(AND, Kept(filters)))
    requires dropped in filters && !Asks(dropped)
    requires forall part: Part | part in Kept(filters) :: part.column != dropped.key.value
    ensures MeansAsAsked(filters, order) <==> Unmeetable(Kept(filters), order)
  {
    MeansAsAskedIff(filters, order);
    WantedIfKept(dropped);
    hide WellFormed, Kept, Meaning, AsAsked, Wanted, Unmeetable, MeansAsAsked, Printable;
    assert MetAt(Kept(filters), dropped.key.value, None, order);
    assert !Accepts(Wanted(dropped), None, order);
  }

  /** Filters that ask a column for two values at once, or for NULL and a comparison, are met by no row either way. */
  lemma AskingTooMuch(filters: seq<Filter>, one: Part, two: Part, order: Order)
    requires (forall filter | filter in filters :: WellFormed(filter)) && Printable(Group(AND, Kept(filters))) && Lawful(order)
    requires one in Kept(filters) && two in Kept(filters) && one.column == two.column
    requires (one.IsNull? && two.Real?) || (one.Real? && two.Real? && one.comparison == two.comparison == Equal && one.value != two.value)
    ensures MeansAsAsked(filters, order)
  {
    hide WellFormed, Kept, Meaning, AsAsked, Wanted, MeansAsAsked, KeptSayAll, Unmeetable, Printable, Accepts;
    MeansAsAskedIff(filters, order);
    if one.IsNull? {
      NullAndValueUnmeetable(Kept(filters), one, two, order);
    } else {
      assert one == Real(one.column, Equal, one.value) && two == Real(one.column, Equal, two.value);
      TwoValuesUnmeetable(Kept(filters), one.column, one.value, two.value, order);
    }
  }

// ---------- The text ----------

  /** The filter asks whether its column is NULL. */
  predicate AsksForNull(filter: Filter) {
    filter.sign == "=" && filter.value.Text? && filter.value.text == "NULL"
  }

  /** A filter as text: its own column and sign before the next placeholder. */
  function PutFilter(filter: Filter, k: nat, rest: string): string
    requires filter.key.Some?
  {
    "(" + (filter.key.value +
           if AsksForNull(filter) then " IS NULL)" + rest
           else " " + (filter.sign + (" " + PutMark(k, ")" + rest))))
  }

  function PutFilters(filters: seq<Filter>, k: nat, rest: string): string
    requires filters != [] && forall filter | filter in filters :: filter.key.Some?
    decreases |filters|
  {
    PutFilter(filters[0], k, if |filters| == 1 then ")" + rest
                             else " AND " + PutFilters(filters[1..], if AsksForNull(filters[0]) then k else k + 1, rest))
  }

  /** What is sent for the filters: numbers as rendered, strings as the timestamps they denote. */
  function Sent(asking: seq<Filter>): seq<string> {
    if asking == [] then []
    else
      (if AsksForNull(asking[0]) then []
       else match asking[0].value
            case Number(rendered) => [rendered]
            case Text(_, Some(timestamp)) => [timestamp]
            case _ => [])
      + Sent(asking[1..])
  }

  /** The filters that are kept, in their order. */
  function Asking(filters: seq<Filter>): (asking: seq<Filter>)
    requires forall filter | filter in filters :: WellFormed(filter)
    ensures forall filter | filter in asking :: filter in filters && Asks(filter)
  {
    if filters == [] then []
    else (if Asks(filters[0]) then [filters[0]] else []) + Asking(filters[1..])
  }

  lemma {:induction false} AskingHas(filters: seq<Filter>, filter: Filter)
    requires (forall other | other in filters :: WellFormed(other)) && filter in filters
    ensures filter in Asking(filters) <==> Asks(filter)
  {
    if filter != filters[0] {
      AskingHas(filters[1..], filter);
    }
  }

  lemma AskingHead(filters: seq<Filter>)
    requires filters != [] && forall filter | filter in filters :: WellFormed(filter)
    ensures Asking(filters) == (if Asks(filters[0]) then [filters[0]] else []) + Asking(filters[1..])
  {}

  lemma {:induction false} AskingSnoc(filters: seq<Filter>, last: Filter)
    requires WellFormed(last) && forall filter | filter in filters :: WellFormed(filter)
    ensures Asking(filters + [last]) == Asking(filters) + if Asks(last) then [last] else []
  {
    hide WellFormed, Asks;
    assert forall filter | filter in filters + [last] :: WellFormed(filter);
    if filters == [] {
      assert filters + [last] == [last] && [last][1..] == [];
    } else {
      assert (filters + [last])[1..] == filters[1..] + [last] && (filters + [last])[0] == filters[0];
      AskingHead(filters + [last]);
      AskingHead(filters);
      AskingSnoc(filters[1..], last);
    }
  }

  function Asked(asking: seq<Filter>): seq<Part>
    requires forall filter | filter in asking :: WellFormed(filter) && Asks(filter)
  {
    if asking == [] then []
    else
      assert Asks(asking[0]);
      [ConditionOf(asking[0]).value] + Asked(asking[1..])
  }

  lemma {:induction false} AskedConcat(a: seq<Filter>, b: seq<Filter>)
    requires forall filter | filter in a + b :: WellFormed(filter) && Asks(filter)
    ensures (forall filter | filter in a :: filter in a + b) && forall filter | filter in b :: filter in a + b
    ensures Asked(a + b) == Asked(a) + Asked(b)
  {
    assert forall filter :: filter in a + b <==> filter in a || filter in b;
    if a == [] {
      assert a + b == b;
    } else {
      assert (a + b)[1..] == a[1..] + b;
      AskedConcat(a[1..], b);
    }
  }

  lemma {:induction false} KeptInOrder(filters: seq<Filter>)
    requires forall filter | filter in filters :: WellFormed(filter)
    ensures Kept(filters) == Asked(Asking(filters))
  {
    if filters != [] {
      var n := |filters| - 1;
      assert filters == filters[..n] + [filters[n]];
      KeptInOrder(filters[..n]);
      AskingSnoc(filters[..n], filters[n]);
      AskedConcat(Asking(filters[..n]), if Asks(filters[n]) then [filters[n]] else []);
    }
  }

  lemma FilterPrints(filter: Filter, k: nat, rest: string)
    requires WellFormed(filter) && Asks(filter) && Printable(ConditionOf(filter).value)
    ensures Put(ConditionOf(filter).value, k, rest) == PutFilter(filter, k, rest)
    ensures Arity(ConditionOf(filter).value) == if AsksForNull(filter) then 0 else 1
    ensures Params(ConditionOf(filter).value) == Sent([filter])
  {
    assert [filter][1..] == [];
    var part := ConditionOf(filter).value;
    if part.Real? {
      SignsMatch(filter.sign, part.comparison);
    }
  }

  lemma KeptIs(filter: Filter)
    requires WellFormed(filter)
    ensures Asks(filter) <==> AsksForNull(filter) || filter.value.Number? || filter.value.timestamp.Some?
  {
    SignsMatch(filter.sign, Equal);
  }

  lemma {:induction false} AskingPrint(asking: seq<Filter>, k: nat, rest: string)
    requires asking != [] && forall filter | filter in asking :: WellFormed(filter) && Asks(filter)
    requires forall part: Part | part in Asked(asking) :: Printable(part)
    ensures PutParts(AND, Asked(asking), k, rest) == PutFilters(asking, k, rest)
    ensures AllParams(Asked(asking)) == Sent(asking)
    decreases |asking|
  {
    hide Put, PutFilter, PutFilters, PutParts, AsksForNull, Params, Sent, Printable;
    var first, others := ConditionOf(asking[0]).value, Asked(asking[1..]);
    assert Asked(asking)[1..] == others && first in Asked(asking);
    SentHead(asking);
    PutHead(asking, k, rest);
    PartsHead(Asked(asking), k, rest);
    if |asking| == 1 {
      FilterPrints(asking[0], k, ")" + rest);
      AskingNone(asking[1..]);
    } else {
      var next := if AsksForNull(asking[0]) then k else k + 1;
      AskingPrint(asking[1..], next, rest);
      FilterPrints(asking[0], k, " AND " + PutFilters(asking[1..], next, rest));
    }
  }

  lemma AskingNone(asking: seq<Filter>)
    requires asking == []
    ensures AllParams(Asked(asking)) == Sent(asking)
  {}

  lemma SentHead(asking: seq<Filter>)
    requires asking != []
    ensures Sent(asking) == Sent([asking[0]]) + Sent(asking[1..])
  {
    assert [asking[0]][1..] == [];
  }

  lemma PutHead(asking: seq<Filter>, k: nat, rest: string)
    requires asking != [] && forall filter | filter in asking :: filter.key.Some?
    ensures PutFilters(asking, k, rest) ==
            PutFilter(asking[0], k, if |asking| == 1 then ")" + rest
                                    else " AND " + PutFilters(asking[1..], if AsksForNull(asking[0]) then k else k + 1, rest))
  {}

  lemma PartsHead(parts: seq<Condition>, k: nat, rest: string)
    requires parts != [] && forall part | part in parts :: Printable(part)
    ensures PutParts(AND, parts, k, rest) ==
            Put(parts[0], k, if |parts| == 1 then ")" + rest else " AND " + PutParts(AND, parts[1..], k + Arity(parts[0]), rest))
    ensures AllParams(parts) == Params(parts[0]) + AllParams(parts[1..])
  {}

  /** The text of the condition shows each kept filter's own column and sign, in their order, and their values are what is
      sent. A filter is kept when it asks for NULL, or has a number or a timestamp. */
  lemma FiltersPrint(filters: seq<Filter>, k: nat)
    requires (forall filter | filter in filters :: WellFormed(filter)) && Printable(Group(AND, Kept(filters)))
    ensures Asking(filters) != [] && C.Text(Group(AND, Kept(filters)), k) == "(" + PutFilters(Asking(filters), k, "")
    ensures Params(Group(AND, Kept(filters))) == Sent(Asking(filters))
    ensures forall filter | filter in filters ::
              filter in Asking(filters) <==> AsksForNull(filter) || filter.value.Number? || filter.value.timestamp.Some?
  {
    forall filter | filter in filters
      ensures filter in Asking(filters) <==> AsksForNull(filter) || filter.value.Number? || filter.value.timestamp.Some?
    {
      KeptIs(filter);
      AskingHas(filters, filter);
    }
    KeptInOrder(filters);
    AskingPrint(Asking(filters), k, "");
  }

  /** It can be serialised exactly when some filter asks for something and none asks whether the invalid column is NULL. */
  lemma FiltersPrintableIff(filters: seq<Filter>)
    requires forall filter | filter in filters :: WellFormed(filter)
    ensures Printable(Group(AND, Kept(filters))) <==>
              && (exists filter :: filter in filters && Asks(filter))
              && forall filter | filter in filters :: ConditionOf(filter) != Some(IsNull(INVALID))
  {
    KeptPrintable(filters);
  }
}
