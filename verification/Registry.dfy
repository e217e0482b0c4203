/** The query manager: every distinct query gets an id, and queries of one kind are stored together. */
module Registry {
  import opened Wrappers
  import opened Conditions
  import opened Queries
  import E = Equality
  import Q = QueryEquality

  datatype Query = Raw(text: string) | Built(options: Options)

  /** In the order of the enumeration, which is the order of the storage. */
  datatype Kind = RAW | SELECT | INSERT | DELETE | UPDATE

  function KindOf(q: Query): Kind {
    match q
    case Raw(_) => RAW
    case Built(options) =>
      match options
      case Select(_, _, _, _, _, _, _, _) => SELECT
      case Insert(_, _, _, _) => INSERT
      case Update(_, _, _) => UPDATE
      case Delete(_, _) => DELETE
  }

  predicate Usable(q: Query) {
    q.Built? ==> Serializable(q.options)
  }

  /** The text with placeholders from $1. */
  function TextOf(q: Query): string
    requires Usable(q)
  {
    match q
    case Raw(text) => text
    case Built(options) => Serialized(options, 1)
  }

  /** Equals of two queries' options; those of different kinds are never Equal. */
  predicate Same(q: Query, p: Query) {
    match q
    case Raw(text) => p.Raw? && text == p.text
    case Built(options) => p.Built? && Q.Equals(options, p.options)
  }

  /** As the application builds them: serialisable, AND only, ascending. */
  predicate Regular(q: Query) {
    Usable(q) && (q.Built? ==> Q.Plain(q.options))
  }

  predicate Reusable(q: Query) {
    q.Built? ==> Q.NegationFree(q.options)
  }

  /** What Equals does not look at: the links of groups and the direction of an order. */
  predicate Agree(q: Query, p: Query) {
    q.Built? && p.Built? ==> Q.Alike(q.options, p.options)
  }

  /** Reusing the id of an Equal query runs the query's own text if and only if they agree on what Equals ignores. */
  lemma SameText(q: Query, p: Query)
    requires Usable(q) && Usable(p) && Same(q, p)
    ensures TextOf(q) == TextOf(p) <==> Agree(q, p)
  {
    if q.Built? {
      Q.EqualTextIff(q.options, p.options, 1);
    }
  }

  lemma RegularAgree(q: Query, p: Query)
    requires Regular(q) && Regular(p)
    ensures Agree(q, p)
  {
    if q.Built? && p.Built? {
      Q.PlainAlike(q.options, p.options);
    }
  }

  lemma SameKind(q: Query, p: Query)
    requires Same(q, p)
    ensures KindOf(q) == KindOf(p)
  {}

  function ConditionOf(q: Query): Option<Condition> {
    if q.Built? && !q.options.Insert? then q.options.condition else None
  }

  /** Equals of queries is symmetric and transitive, and reflexive exactly on those without negations. */
  lemma SameIsAnEquivalence(q: Query, p: Query, r: Query)
    ensures Same(q, q) <==> Reusable(q)
    ensures Same(q, p) ==> Same(p, q)
    ensures Same(q, p) && Same(p, r) ==> Same(q, r)
  {
    var a, b, c := ConditionOf(q), ConditionOf(p), ConditionOf(r);
    if a.Some? {
      E.EqualsIsAnEquivalence(a.value, a.value, a.value);
      if b.Some? {
        E.EqualsIsAnEquivalence(a.value, b.value, b.value);
        if c.Some? {
          E.EqualsIsAnEquivalence(a.value, b.value, c.value);
        }
      }
    }
  }

  // ---------- Ids ----------

  /** What was stored under each id: entry i has id i + 1. None is an id spent on a query that was not stored. */
  type Log = seq<Option<Query>>

  /** The query stored at index i is Equal to q. */
  predicate SameAt(log: Log, i: nat, q: Query)
    requires i < |log|
  {
    log[i].Some? && Same(log[i].value, q)
  }

  /** The first stored query Equal to `q`, from index `i` on. */
  function Find(log: Log, q: Query, i: nat): (found: Option<nat>)
    requires i <= |log|
    ensures found.Some? ==>
              && i <= found.value < |log| && SameAt(log, found.value, q)
              && forall j | i <= j < found.value :: !SameAt(log, j, q)
    ensures found.None? ==> forall j | i <= j < |log| :: !SameAt(log, j, q)
    decreases |log| - i
  {
    if i == |log| then None
    else if SameAt(log, i, q) then Some(i)
    else Find(log, q, i + 1)
  }

  /** The log and the id after a request. Tracing serialises a new query, which throws on one that cannot be: its id is
      spent and nothing is stored. Without tracing it is stored like any other. */
  function Register(log: Log, q: Query, traced: bool): (Log, Option<nat>) {
    var found := Find(log, q, 0);
    if found.Some? then (log, Some(found.value + 1))
    else if traced && !Usable(q) then (log + [None], None)
    else (log + [Some(q)], Some(|log| + 1))
  }

  /** A request throws exactly when tracing has to serialise a new query that cannot be. Otherwise its id is that of the
      first stored query Equal to it, or the next one, under which the query itself is then stored. */
  lemma RegisterGives(log: Log, q: Query, traced: bool)
    ensures var (after, id) := Register(log, q, traced);
            var known := exists i :: 0 <= i < |log| && SameAt(log, i, q);
            && (id == None <==> traced && !Usable(q) && !known)
            && (known ==> after == log && 1 <= id.value <= |log| && SameAt(log, id.value - 1, q)
                          && forall i | 0 <= i < id.value - 1 :: !SameAt(log, i, q))
            && (!known ==> |after| == |log| + 1 && log <= after
                           && (id != None ==> id.value == |after| && after[|log|] == Some(q)))
  {}

  /** Requests, each with whether it was traced. */
  function RegisterAll(log: Log, requests: seq<(Query, bool)>): Log
    decreases |requests|
  {
    if requests == [] then log
    else RegisterAll(Register(log, requests[0].0, requests[0].1).0, requests[1..])
  }

  ghost predicate Distinct(log: Log) {
    forall i, j | 0 <= i < |log| && 0 <= j < |log| && i != j && log[j].Some? :: !SameAt(log, i, log[j].value)
  }

  lemma RegisterKeepsDistinct(log: Log, q: Query, traced: bool)
    requires Distinct(log)
    ensures var (after, id) := Register(log, q, traced);
            && Distinct(after) && log <= after
            && (id.Some? ==> 1 <= id.value <= |after| && (SameAt(after, id.value - 1, q) || after[id.value - 1] == Some(q)))
  {
    var after := Register(log, q, traced).0;
    if |after| > |log| {
      forall i, j | 0 <= i < |after| && 0 <= j < |after| && i != j && after[j].Some?
        ensures !SameAt(after, i, after[j].value)
      {
        if j < |log| {
          SameIsAnEquivalence(q, log[j].value, q);
          assert !SameAt(log, j, q);
          assert i < |log| ==> !SameAt(log, i, log[j].value);
        } else {
          assert !SameAt(log, i, q);
        }
      }
    }
  }

  /** Stored queries stay pairwise unequal, and ids once given stay. */
  lemma {:induction false} RegisterAllKeepsDistinct(log: Log, requests: seq<(Query, bool)>)
    requires Distinct(log)
    ensures Distinct(RegisterAll(log, requests)) && log <= RegisterAll(log, requests)
    decreases |requests|
  {
    if requests != [] {
      RegisterKeepsDistinct(log, requests[0].0, requests[0].1);
      RegisterAllKeepsDistinct(Register(log, requests[0].0, requests[0].1).0, requests[1..]);
    }
  }

  /** Two requests get the same id exactly when they are Equal, whatever is requested before and between them. */
  lemma SameIdIffSame(before: seq<(Query, bool)>, q: Query, traced: bool, between: seq<(Query, bool)>, p: Query, tracedLater: bool)
    ensures var (log, id) := Register(RegisterAll([], before), q, traced);
            var (_, later) := Register(RegisterAll(log, between), p, tracedLater);
            id.Some? ==> (later == id <==> Same(q, p))
  {
    RegisterAllKeepsDistinct([], before);
    RegisterKeepsDistinct(RegisterAll([], before), q, traced);
    var (log, id) := Register(RegisterAll([], before), q, traced);
    if id.Some? {
      RegisterAllKeepsDistinct(log, between);
      SameIdWhenSame(RegisterAll(log, between), id.value, q, p, tracedLater);
    }
  }

  lemma SameIdWhenSame(stored: Log, id: nat, q: Query, p: Query, traced: bool)
    requires Distinct(stored) && 1 <= id <= |stored|
    requires SameAt(stored, id - 1, q) || stored[id - 1] == Some(q)
    ensures Register(stored, p, traced).1 == Some(id) <==> Same(q, p)
  {
    var found := Find(stored, p, 0);
    var mine := stored[id - 1].value;
    SameIsAnEquivalence(mine, q, p);
    SameIsAnEquivalence(q, mine, p);
    if found.Some? {
      var other := stored[found.value].value;
      SameIsAnEquivalence(other, p, mine);
      SameIsAnEquivalence(p, mine, mine);
      SameIsAnEquivalence(mine, p, other);
      assert found.value != id - 1 ==> !SameAt(stored, found.value, mine);
    }
    assert Same(q, p) ==> SameAt(stored, id - 1, p);
  }

  /** A query with a negation in it is given a new id every time. */
  lemma NegationIsNeverReused(log: Log, q: Query, traced: bool)
    requires !Reusable(q)
    ensures Find(log, q, 0).None? && Register(log, q, false) == (log + [Some(q)], Some(|log| + 1))
  {
    forall i | 0 <= i < |log| ensures !SameAt(log, i, q) {
      if SameAt(log, i, q) {
        SameIsAnEquivalence(log[i].value, q, log[i].value);
        SameIsAnEquivalence(q, log[i].value, q);
      }
    }
  }

  lemma FindIsFirst(log: Log, q: Query, m: nat)
    requires m < |log| && SameAt(log, m, q) && forall j | 0 <= j < m :: !SameAt(log, j, q)
    ensures Find(log, q, 0) == Some(m)
  {
    var found := Find(log, q, 0);
    assert found.Some?;
  }
}
