/** Preparing the registered queries on connections, and running them by id instead of by text. */
module Connections {
  import opened Wrappers
  import opened Registry
  import opened Storages
  import opened Iterating
  import opened Serializing
  import Q = QueryEquality

  /** A connection: the last id it prepared up to, and the statements the server holds for it. */
  datatype Link = Link(last: nat, prepared: map<nat, string>)

  const NEW_LINK := Link(0, map[])

  /** A query that does not serialise throws before the server is asked; the server refuses a statement whose name it
      already holds, and any other it chooses to. */
  predicate Prepares(prepared: map<nat, string>, refused: set<nat>, entry: Entry) {
    Usable(entry.1) && entry.0 !in refused && entry.0 !in prepared
  }

  /** Prepares from the last entry down to the one after `saved`, until one fails. */
  function PrepareDown(prepared: map<nat, string>, entries: seq<Entry>, saved: nat, refused: set<nat>): (map<nat, string>, bool)
    decreases |entries|
  {
    if entries == [] || entries[|entries| - 1].0 <= saved then (prepared, true)
    else
      var last := entries[|entries| - 1];
      if !Prepares(prepared, refused, last) then (prepared, false)
      else PrepareDown(prepared[last.0 := TextOf(last.1)], entries[..|entries| - 1], saved, refused)
  }

  /** Whether all went well; the last id moves on in any case. */
  function Refreshed(link: Link, log: Log, refused: set<nat>): (Link, bool) {
    if link.last < LastId(log) then
      var (prepared, ok) := PrepareDown(link.prepared, Stored(log), link.last, refused);
      (Link(LastId(log), prepared), ok)
    else (link, true)
  }

  /** Moves on and compares with the end. */
  method Advance(it: QueriesIterator) returns (field: Option<Entry>)
    requires it.Valid() && it.entries != []
    modifies it
    ensures it.Valid() && it.steps == old(it.steps) + 1 && field == Visited(it.entries, it.reverse, it.steps)
  {
    it.Next();
    field := it.GetField();
    var atEnd := AtEnd(it);
    if atEnd {
      field := None;
    }
  }

  class Connection {
    var lastSupported: nat
    var prepared: map<nat, string>

    ghost function Value(): Link
      reads this
    {
      Link(lastSupported, prepared)
    }

    constructor ()
      ensures Value() == NEW_LINK
    {
      lastSupported := 0;
      prepared := map[];
    }

    /** Serialises the query and has it prepared under its id. */
    method SupportQuery(entry: Entry, refused: set<nat>) returns (ok: bool)
      modifies this`prepared
      ensures ok == Prepares(old(prepared), refused, entry)
      ensures prepared == if ok then old(prepared)[entry.0 := TextOf(entry.1)] else old(prepared)
    {
      ok := Prepares(prepared, refused, entry);
      if ok {
        prepared := prepared[entry.0 := TextOf(entry.1)];
      }
    }

    /** Walks the storage in reverse down to the last id already supported. */
    method RefreshSupportedQueries(manager: QueryManager, tie: bool, refused: set<nat>) returns (ok: bool)
      requires manager.Valid() && Stored(manager.log) != []
      modifies this
      ensures (Value(), ok) == Refreshed(old(Value()), manager.log, refused)
    {
      ghost var places;
      var vectors;
      vectors, places := StoredVectors(manager.supported, manager.log);
      var it := new QueriesIterator(false, vectors, true, tie, Stored(manager.log), places, Ranks(manager.log));
      ok := PrepareMissing(it, refused);
    }

    method PrepareMissing(it: QueriesIterator, refused: set<nat>) returns (ok: bool)
      requires it.Valid() && it.steps == 0 && it.reverse && it.entries != []
      modifies this, it
      ensures var realLast := it.entries[|it.entries| - 1].0;
              if old(lastSupported) < realLast
              then (prepared, ok) == PrepareDown(old(prepared), it.entries, old(lastSupported), refused) && lastSupported == realLast
              else ok && Value() == old(Value())
    {
      var field := it.GetField();
      var realLast := field.value.0;
      if lastSupported >= realLast {
        return true;
      }
      var saved := lastSupported;
      lastSupported := realLast;
      ok := PrepareDownTo(it, field.value, saved, refused);
    }

    /** The do-while loop: prepares what the iterator shows and moves on, down to the ids saved. */
    method PrepareDownTo(it: QueriesIterator, shown: Entry, saved: nat, refused: set<nat>) returns (ok: bool)
      requires it.Valid() && it.steps == 0 && it.reverse && it.entries != []
      requires Some(shown) == Visited(it.entries, true, 0) && saved < shown.0
      modifies this`prepared, it
      ensures (prepared, ok) == PrepareDown(old(prepared), it.entries, saved, refused)
    {
      var field := Some(shown);
      var more := true;
      assert it.entries[..|it.entries|] == it.entries;
      while more
        invariant it.Valid() && it.steps <= |it.entries|
        invariant field == Visited(it.entries, true, it.steps)
        invariant more <==> field.Some? && field.value.0 > saved
        invariant PrepareDown(prepared, it.entries[..|it.entries| - it.steps], saved, refused)
                  == PrepareDown(old(prepared), it.entries, saved, refused)
        decreases |it.entries| - it.steps
      {
        ghost var rest := it.entries[..|it.entries| - it.steps];
        assert rest[|rest| - 1] == field.value && rest[..|rest| - 1] == it.entries[..|it.entries| - it.steps - 1];
        ok := SupportQuery(field.value, refused);
        if !ok {
          return;
        }
        field := Advance(it);
        more := field.Some? && field.value.0 > saved;
      }
      ok := true;
    }
  }

  // ---------- What is prepared ----------

  predicate StoredId(log: Log, id: nat) {
    1 <= id <= |log| && log[id - 1].Some?
  }

  /** Exactly the stored ids up to the last one are prepared, each with its own text. */
  ghost predicate Ready(link: Link, log: Log) {
    && link.last <= |log|
    && (forall id: nat | id <= link.last && StoredId(log, id) ::
          Usable(log[id - 1].value) && Lookup(link.prepared, id) == Some(TextOf(log[id - 1].value)))
    && (forall id: nat | !(id <= link.last && StoredId(log, id)) :: Lookup(link.prepared, id) == None)
  }

  /** Whatever is prepared has a stored id up to the last one and the text of that id. */
  ghost predicate Sound(link: Link, log: Log) {
    && link.last <= |log|
    && forall id: nat | id in link.prepared ::
         && id <= link.last && StoredId(log, id)
         && Usable(log[id - 1].value) && link.prepared[id] == TextOf(log[id - 1].value)
  }

  lemma ReadyIsSound(link: Link, log: Log)
    requires Ready(link, log)
    ensures Sound(link, log)
  {
    forall id: nat | id in link.prepared ensures id <= link.last && StoredId(log, id) {
      assert Lookup(link.prepared, id) == Some(link.prepared[id]);
    }
    forall id: nat | id in link.prepared
      ensures Usable(log[id - 1].value) && link.prepared[id] == TextOf(log[id - 1].value)
    {
      assert Lookup(link.prepared, id) == Some(link.prepared[id]);
    }
  }

  /** From entry `m` on every entry serialises and is accepted. */
  ghost predicate AllFine(entries: seq<Entry>, m: nat, refused: set<nat>) {
    forall k | m <= k < |entries| :: Usable(entries[k].1) && entries[k].0 !in refused
  }

  /** Every entry with an id above `saved` serialises and is accepted. */
  ghost predicate FineAbove(entries: seq<Entry>, saved: nat, refused: set<nat>) {
    forall k | 0 <= k < |entries| && entries[k].0 > saved :: Usable(entries[k].1) && entries[k].0 !in refused
  }

  /** No entry above `saved` is prepared yet. */
  ghost predicate NoneYet(prepared: map<nat, string>, entries: seq<Entry>, saved: nat) {
    Ascending(entries) && forall k | 0 <= k < |entries| && entries[k].0 > saved :: entries[k].0 !in prepared
  }

  lemma NoneYetBelow(prepared: map<nat, string>, entries: seq<Entry>, saved: nat, text: string)
    requires NoneYet(prepared, entries, saved) && entries != []
    ensures NoneYet(prepared[entries[|entries| - 1].0 := text], entries[..|entries| - 1], saved)
  {
    var n := |entries| - 1;
    forall k | 0 <= k < n && entries[k].0 > saved ensures entries[k].0 !in prepared[entries[n].0 := text] {
      IdOrder(entries, k, n);
    }
  }

  /** All goes well exactly when every entry above `saved` serialises and is accepted. */
  lemma {:induction false} PrepareSucceedsIff(prepared: map<nat, string>, entries: seq<Entry>, saved: nat, refused: set<nat>)
    requires NoneYet(prepared, entries, saved)
    ensures PrepareDown(prepared, entries, saved, refused).1 <==> FineAbove(entries, saved, refused)
    decreases |entries|
  {
    if entries != [] {
      var n := |entries| - 1;
      if entries[n].0 <= saved {
        forall k | 0 <= k < |entries| ensures entries[k].0 <= saved {
          IdOrder(entries, n, k);
        }
      } else if Prepares(prepared, refused, entries[n]) {
        var text := TextOf(entries[n].1);
        NoneYetBelow(prepared, entries, saved, text);
        PrepareSucceedsIff(prepared[entries[n].0 := text], entries[..n], saved, refused);
        FineSplits(entries, saved, refused);
      }
    }
  }

  lemma FineSplits(entries: seq<Entry>, saved: nat, refused: set<nat>)
    requires entries != []
    requires var last := entries[|entries| - 1]; Usable(last.1) && last.0 !in refused
    ensures FineAbove(entries, saved, refused) <==> FineAbove(entries[..|entries| - 1], saved, refused)
  {
    var n := |entries| - 1;
    if FineAbove(entries[..n], saved, refused) {
      forall k | 0 <= k < |entries| && entries[k].0 > saved ensures Usable(entries[k].1) && entries[k].0 !in refused {
        assert k < n ==> entries[..n][k] == entries[k];
      }
    }
    if FineAbove(entries, saved, refused) {
      forall k | 0 <= k < n && entries[..n][k].0 > saved
        ensures Usable(entries[..n][k].1) && entries[..n][k].0 !in refused
      {
        assert entries[..n][k] == entries[k];
      }
    }
  }

  /** An id that is not among the entries above `saved` keeps what it has. */
  lemma {:induction false} PrepareKeeps(prepared: map<nat, string>, entries: seq<Entry>, saved: nat, refused: set<nat>, id: nat)
    requires id <= saved || forall k | 0 <= k < |entries| :: entries[k].0 != id
    ensures Lookup(PrepareDown(prepared, entries, saved, refused).0, id) == Lookup(prepared, id)
    decreases |entries|
  {
    if entries != [] && entries[|entries| - 1].0 > saved && Prepares(prepared, refused, entries[|entries| - 1]) {
      var n := |entries| - 1;
      PrepareKeeps(prepared[entries[n].0 := TextOf(entries[n].1)], entries[..n], saved, refused, id);
    }
  }

  /** Entry `m` is prepared exactly when it and all after it serialise and are accepted. */
  lemma {:induction false} PrepareAdds(prepared: map<nat, string>, entries: seq<Entry>, saved: nat, refused: set<nat>, m: nat)
    requires NoneYet(prepared, entries, saved) && m < |entries| && entries[m].0 > saved
    ensures Lookup(PrepareDown(prepared, entries, saved, refused).0, entries[m].0)
            == if AllFine(entries, m, refused) then Some(TextOf(entries[m].1)) else None
    decreases |entries|
  {
    var n := |entries| - 1;
    IdOrder(entries, m, n);
    if Prepares(prepared, refused, entries[n]) {
      var next := prepared[entries[n].0 := TextOf(entries[n].1)];
      NoneYetBelow(prepared, entries, saved, TextOf(entries[n].1));
      if m == n {
        forall k | 0 <= k < n ensures entries[..n][k].0 != entries[n].0 {
          IdOrder(entries, k, n);
        }
        PrepareKeeps(next, entries[..n], saved, refused, entries[n].0);
      } else {
        PrepareAdds(next, entries[..n], saved, refused, m);
        assert AllFine(entries, m, refused) <==> AllFine(entries[..n], m, refused) by {
          AllFineSplits(entries, m, refused);
        }
      }
    } else {
      assert !(Usable(entries[n].1) && entries[n].0 !in refused);
      assert !AllFine(entries, m, refused);
    }
  }

  lemma AllFineSplits(entries: seq<Entry>, m: nat, refused: set<nat>)
    requires m < |entries| - 1
    requires var last := entries[|entries| - 1]; Usable(last.1) && last.0 !in refused
    ensures AllFine(entries, m, refused) <==> AllFine(entries[..|entries| - 1], m, refused)
  {
    var n := |entries| - 1;
    if AllFine(entries[..n], m, refused) {
      forall k | m <= k < |entries| ensures Usable(entries[k].1) && entries[k].0 !in refused {
        assert k < n ==> entries[..n][k] == entries[k];
      }
    }
    if AllFine(entries, m, refused) {
      forall k | m <= k < n ensures Usable(entries[..n][k].1) && entries[..n][k].0 !in refused {
        assert entries[..n][k] == entries[k];
      }
    }
  }

  // ---------- One refresh ----------

  /** The log's entries: their ids are the stored ones, and none above the last supported is prepared yet. */
  lemma SoundIsNoneYet(link: Link, log: Log)
    requires Sound(link, log)
    ensures NoneYet(link.prepared, Stored(log), link.last)
  {
    forall a, b | 0 <= a < b < |Stored(log)| ensures Stored(log)[a].0 < Stored(log)[b].0 {
      IdsAscend(log, ALL, a, b);
    }
  }

  /** What a refresh leaves under an id: above the last supported one the stored ids whose entry and all later ones
      were fine, below it what was there. */
  lemma RefreshAt(link: Link, log: Log, refused: set<nat>, id: nat)
    requires Sound(link, log) && link.last < LastId(log)
    ensures var after := Refreshed(link, log, refused).0;
            Lookup(after.prepared, id) ==
              if id <= link.last || !StoredId(log, id) then Lookup(link.prepared, id)
              else if Usable(log[id - 1].value) && AllFine(Stored(log), RankIn(log, id), refused) then Some(TextOf(log[id - 1].value)) else None
    ensures id > link.last && StoredId(log, id) ==>
              RankIn(log, id) < |Stored(log)| && Stored(log)[RankIn(log, id)] == (id, log[id - 1].value)
  {
    SoundIsNoneYet(link, log);
    if id > link.last && StoredId(log, id) {
      AllKinds(KindOf(log[id - 1].value));
      StoredAt(log, id - 1, ALL);
      PrepareAdds(link.prepared, Stored(log), link.last, refused, RankIn(log, id));
    } else {
      if id > link.last {
        forall k | 0 <= k < |Stored(log)| ensures Stored(log)[k].0 != id {
          EntryAt(log, ALL, k);
        }
      }
      PrepareKeeps(link.prepared, Stored(log), link.last, refused, id);
    }
  }

  /** Even when statements fail, no id is ever prepared with the text of another. */
  lemma RefreshKeepsSound(link: Link, log: Log, refused: set<nat>)
    requires Sound(link, log)
    ensures Sound(Refreshed(link, log, refused).0, log)
  {
    if link.last < LastId(log) {
      var after := Refreshed(link, log, refused).0;
      LastIsStored(log);
      forall id: nat | id in after.prepared
        ensures id <= after.last && StoredId(log, id)
        ensures Usable(log[id - 1].value) && after.prepared[id] == TextOf(log[id - 1].value)
      {
        RefreshAt(link, log, refused, id);
        assert Lookup(after.prepared, id) == Some(after.prepared[id]);
        if id > link.last {
          assert id !in link.prepared;
          assert AllFine(Stored(log), RankIn(log, id), refused);
          LastIsLast(log, id - 1);
        }
      }
    }
  }

  /** A refresh does not return to the ids it once passed: what was refused once is missing for good. */
  lemma RefreshNeverReturns(link: Link, log: Log, refused: set<nat>, id: nat)
    requires Sound(link, log)
    ensures id <= link.last ==> Lookup(Refreshed(link, log, refused).0.prepared, id) == Lookup(link.prepared, id)
    ensures link.last < id && StoredId(log, id) && (id in refused || !Usable(log[id - 1].value)) ==>
              var after := Refreshed(link, log, refused).0; id <= after.last && id !in after.prepared
  {
    if link.last < LastId(log) {
      RefreshAt(link, log, refused, id);
      if link.last < id && StoredId(log, id) {
        LastIsLast(log, id - 1);
        assert Lookup(Refreshed(link, log, refused).0.prepared, id).Some? ==> AllFine(Stored(log), RankIn(log, id), refused);
      }
    } else if link.last < id && StoredId(log, id) {
      LastIsLast(log, id - 1);
    }
  }

  /** A refresh succeeds, and leaves exactly the stored ids prepared, if and only if everything missing serialises and is
      accepted. */
  lemma RefreshKeepsReady(link: Link, log: Log, refused: set<nat>)
    requires Ready(link, log)
    ensures var (after, ok) := Refreshed(link, log, refused);
            && after.last == (if link.last < LastId(log) then LastId(log) else link.last)
            && (ok <==> FineAbove(Stored(log), link.last, refused))
            && (ok <==> Ready(after, log))
  {
    ReadyIsSound(link, log);
    SoundIsNoneYet(link, log);
    LastIsStored(log);
    if link.last < LastId(log) {
      PrepareSucceedsIff(link.prepared, Stored(log), link.last, refused);
      if FineAbove(Stored(log), link.last, refused) {
        FineIsReady(link, log, refused);
      } else {
        UnfineIsNotReady(link, log, refused);
      }
    } else {
      forall k | 0 <= k < |Stored(log)| ensures Stored(log)[k].0 <= link.last {
        EntryAt(log, ALL, k);
        LastIsLast(log, Stored(log)[k].0 - 1);
      }
    }
  }

  lemma FineIsReady(link: Link, log: Log, refused: set<nat>)
    requires Ready(link, log) && link.last < LastId(log) && FineAbove(Stored(log), link.last, refused)
    ensures Ready(Refreshed(link, log, refused).0, log)
  {
    ReadyIsSound(link, log);
    SoundIsNoneYet(link, log);
    LastIsStored(log);
    var after := Refreshed(link, log, refused).0;
    forall id: nat
      ensures if id <= after.last && StoredId(log, id)
              then Usable(log[id - 1].value) && Lookup(after.prepared, id) == Some(TextOf(log[id - 1].value))
              else Lookup(after.prepared, id) == None
    {
      RefreshAt(link, log, refused, id);
      if id > link.last && StoredId(log, id) {
        LastIsLast(log, id - 1);
        AboveIsFine(link, log, refused, id);
      }
    }
  }

  lemma AboveIsFine(link: Link, log: Log, refused: set<nat>, id: nat)
    requires Sound(link, log) && FineAbove(Stored(log), link.last, refused) && id > link.last && StoredId(log, id)
    requires RankIn(log, id) < |Stored(log)| && Stored(log)[RankIn(log, id)] == (id, log[id - 1].value)
    ensures AllFine(Stored(log), RankIn(log, id), refused) && Usable(log[id - 1].value)
  {
    SoundIsNoneYet(link, log);
    var entries, m := Stored(log), RankIn(log, id);
    assert Usable(entries[m].1);
    forall k | m <= k < |entries| ensures Usable(entries[k].1) && entries[k].0 !in refused {
      IdOrder(entries, k, m);
      assert entries[k].0 > link.last;
    }
  }

  lemma UnfineIsNotReady(link: Link, log: Log, refused: set<nat>)
    requires Ready(link, log) && link.last < LastId(log) && !FineAbove(Stored(log), link.last, refused)
    ensures !Ready(Refreshed(link, log, refused).0, log)
  {
    ReadyIsSound(link, log);
    var after := Refreshed(link, log, refused).0;
    var k :| 0 <= k < |Stored(log)| && Stored(log)[k].0 > link.last
             && !(Usable(Stored(log)[k].1) && Stored(log)[k].0 !in refused);
    EntryAt(log, ALL, k);
    var id := Stored(log)[k].0;
    RefreshNeverReturns(link, log, refused, id);
    assert id <= after.last && StoredId(log, id) && Lookup(after.prepared, id) == None;
  }

  // ---------- Running a query ----------

  /** What an entry sends: the id of a prepared statement or a text, and its parameters. */
  datatype Executable = ById(id: nat, params: seq<string>) | ByText(text: string, params: seq<string>)

  /** The text that runs and its parameters; none if the server has no such statement. */
  function Runs(entry: Executable, link: Link): Option<(string, seq<string>)> {
    match entry
    case ByText(text, params) => Some((text, params))
    case ById(id, params) => if id in link.prepared then Some((link.prepared[id], params)) else None
  }

  /** With an id in hand: prepares what the connection is missing, if it does not know the id yet. */
  function Answer(link: Link, log: Log, id: nat, refused: set<nat>): (Link, bool) {
    if link.last < id then Refreshed(link, log, refused) else (link, true)
  }

  method CreateQueryTransactionEntry(q: Query, collector: ValueCollector, isCached: bool, traced: bool, manager: QueryManager,
                                     connection: Connection, tie: bool, refused: set<nat>) returns (entry: Option<Executable>)
    requires manager.Valid()
    modifies collector, manager, connection
    ensures collector.values == [] && manager.Valid()
    ensures isCached ==>
              var (log, id) := Register(old(manager.log), q, traced);
              && manager.log == log
              && (id.None? ==> entry == None && connection.Value() == old(connection.Value()))
              && (id.Some? ==>
                    var (link, ok) := Answer(old(connection.Value()), log, id.value, refused);
                    && connection.Value() == link
                    && entry == if ok then Some(ById(id.value, old(collector.values))) else None)
    ensures !isCached ==>
              && manager.log == old(manager.log) && connection.Value() == old(connection.Value())
              && entry == if Usable(q) then Some(ByText(TextOf(q), old(collector.values))) else None
  {
    var taken := new ValueCollector();
    collector.ExtractTo(taken);
    assert taken.values == old(collector.values);
    if isCached {
      RegisterStores(manager.log, q, traced);
      var id := manager.GetOrSupportQueryId(q, traced);
      if id.None? {
        return None;
      }
      if connection.lastSupported < id.value {
        var ok := connection.RefreshSupportedQueries(manager, tie, refused);
        if !ok {
          return None;
        }
      }
      entry := Some(ById(id.value, taken.values));
    } else {
      entry := if Usable(q) then Some(ByText(TextOf(q), taken.values)) else None;
    }
  }

  /** A given id is stored, under a query that is Equal or the same. */
  lemma RegisterStores(log: Log, q: Query, traced: bool)
    ensures var (after, id) := Register(log, q, traced);
            && log <= after && |log| <= |after|
            && (id.Some? ==> Registered(after, id.value, q) && Stored(after) != [] && id.value <= LastId(after))
  {
    hide Same, Usable, OfKinds;
    var (after, id) := Register(log, q, traced);
    if id.Some? {
      LastIsLast(after, id.value - 1);
    }
  }

  ghost predicate Registered(log: Log, id: nat, q: Query) {
    StoredId(log, id) && (Same(log[id - 1].value, q) || log[id - 1].value == q)
  }

  lemma StaysAcross(link: Link, log: Log, after: Log)
    requires log <= after
    ensures Ready(link, log) ==> Ready(link, after)
    ensures Sound(link, log) ==> Sound(link, after)
  {
    assert forall id: nat | id <= |log| :: StoredId(after, id) == StoredId(log, id);
  }

  // ---------- Runs over many connections ----------

  /** An entry given out on a connection, for a query. */
  datatype Given = Given(connection: nat, id: nat, q: Query)

  /** `pending` holds, for each connection, the id its factory got but has not answered yet: in between the query
      manager's lock is free and others register. */
  datatype State = State(log: Log, links: seq<Link>, pending: seq<Option<(nat, Query)>>, given: seq<Given>)

  datatype Event =
    | Open
    | Ask(connection: nat, q: Query, traced: bool)
    | Refresh(connection: nat, refused: set<nat>)

  const NO_STATE := State([], [], [], [])

  function Step(s: State, e: Event): State {
    match e
    case Open => s.(links := s.links + [NEW_LINK], pending := s.pending + [None])
    case Ask(c, q, traced) =>
      if c >= |s.pending| || s.pending[c].Some? then s
      else
        var (log, id) := Register(s.log, q, traced);
        s.(log := log, pending := s.pending[c := if id.Some? then Some((id.value, q)) else None])
    case Refresh(c, refused) =>
      if c >= |s.pending| || c >= |s.links| || s.pending[c].None? then s
      else
        var (id, q) := s.pending[c].value;
        var (link, ok) := Answer(s.links[c], s.log, id, refused);
        s.(links := s.links[c := link], pending := s.pending[c := None],
           given := if ok then s.given + [Given(c, id, q)] else s.given)
  }

  function After(s: State, events: seq<Event>): State
    decreases |events|
  {
    if events == [] then s else After(Step(s, events[0]), events[1..])
  }

  /** Whatever fails: every connection is sound, and every id in hand or given out is stored for its query. */
  ghost predicate Inv(s: State) {
    && |s.links| == |s.pending|
    && (forall c | 0 <= c < |s.links| :: Sound(s.links[c], s.log))
    && (forall c | 0 <= c < |s.pending| && s.pending[c].Some? :: Registered(s.log, s.pending[c].value.0, s.pending[c].value.1))
    && (forall g | g in s.given ::
          && g.connection < |s.links| && Registered(s.log, g.id, g.q) && g.id <= s.links[g.connection].last)
  }

  lemma AnswerKeepsSound(link: Link, log: Log, id: nat, q: Query, refused: set<nat>)
    requires Sound(link, log) && Registered(log, id, q)
    ensures Sound(Answer(link, log, id, refused).0, log) && id <= Answer(link, log, id, refused).0.last
  {
    RefreshKeepsSound(link, log, refused);
    LastIsLast(log, id - 1);
  }

  lemma AskKeepsInv(s: State, c: nat, q: Query, traced: bool)
    requires Inv(s)
    ensures Inv(Step(s, Ask(c, q, traced)))
  {
    hide Same, Usable, TextOf;
    var after := Step(s, Ask(c, q, traced));
    RegisterStores(s.log, q, traced);
    forall d | 0 <= d < |after.links| ensures Sound(after.links[d], after.log) {
      StaysAcross(s.links[d], s.log, after.log);
    }
  }

  lemma RefreshKeepsInv(s: State, c: nat, refused: set<nat>)
    requires Inv(s)
    ensures Inv(Step(s, Refresh(c, refused)))
  {
    if c < |s.pending| && s.pending[c].Some? {
      var (id, q) := s.pending[c].value;
      AnswerKeepsSound(s.links[c], s.log, id, q, refused);
      var after := Step(s, Refresh(c, refused));
      forall g | g in after.given ensures g.id <= after.links[g.connection].last {
        if g.connection == c {
          LastGrows(s.links[c], s.log, id, refused);
        }
      }
    }
  }

  lemma LastGrows(link: Link, log: Log, id: nat, refused: set<nat>)
    ensures link.last <= Answer(link, log, id, refused).0.last
  {}

  lemma StepKeepsInv(s: State, e: Event)
    requires Inv(s)
    ensures Inv(Step(s, e))
  {
    match e
    case Open =>
    case Ask(c, q, traced) => AskKeepsInv(s, c, q, traced);
    case Refresh(c, refused) => RefreshKeepsInv(s, c, refused);
  }

  /** Whatever fails and whatever happens later, what runs under an id a connection has passed does not change. */
  lemma StepKeepsRunning(s: State, e: Event, c: nat, id: nat)
    requires Inv(s) && c < |s.links| && id <= s.links[c].last
    ensures var after := Step(s, e);
            c < |after.links| && id <= after.links[c].last && Lookup(after.links[c].prepared, id) == Lookup(s.links[c].prepared, id)
  {
    if e.Refresh? && e.connection == c && s.pending[c].Some? {
      RefreshNeverReturns(s.links[c], s.log, e.refused, id);
    }
  }

  /** In every run: connections are sound, and an entry once given out runs in every later state what it ran when it was
      given out. */
  lemma {:induction false} EveryRunPrepares(s: State, events: seq<Event>)
    requires Inv(s)
    ensures Inv(After(s, events))
    ensures forall g | g in s.given ::
              var after := After(s, events);
              && g in after.given && g.connection < |s.links| <= |after.links|
              && Lookup(after.links[g.connection].prepared, g.id) == Lookup(s.links[g.connection].prepared, g.id)
    decreases |events|
  {
    if events != [] {
      StepKeepsInv(s, events[0]);
      var next := Step(s, events[0]);
      EveryRunPrepares(next, events[1..]);
      forall g | g in s.given
        ensures g in next.given && |s.links| <= |next.links|
        ensures Lookup(next.links[g.connection].prepared, g.id) == Lookup(s.links[g.connection].prepared, g.id)
      {
        StepKeepsRunning(s, events[0], g.connection, g.id);
      }
    }
  }

  /** After any run an entry given out earlier runs the text of a query that its own is Equal to, with its own
      parameters, or it does not run. It runs its own text if and only if the two agree on what Equals ignores. */
  lemma EveryEntryRunsItsOwnIff(events: seq<Event>, g: Given, params: seq<string>)
    requires g in After(NO_STATE, events).given
    ensures var s := After(NO_STATE, events);
            && g.connection < |s.links| && StoredId(s.log, g.id)
            && var stored, run := s.log[g.id - 1].value, Runs(ById(g.id, params), s.links[g.connection]);
               && (Same(stored, g.q) || stored == g.q)
               && (run.Some? ==> Usable(stored) && run.value == (TextOf(stored), params))
               && (run.Some? && Usable(g.q) ==> (run.value.0 == TextOf(g.q) <==> stored == g.q || Agree(stored, g.q)))
  {
    hide Same, TextOf, Agree;
    EveryRunPrepares(NO_STATE, events);
    var s := After(NO_STATE, events);
    var stored := s.log[g.id - 1].value;
    if g.id in s.links[g.connection].prepared && Usable(g.q) && stored != g.q {
      SameText(stored, g.q);
    }
  }

  // ---------- While nothing fails ----------

  ghost predicate AllReady(s: State) {
    && Inv(s)
    && (forall c | 0 <= c < |s.links| :: Ready(s.links[c], s.log))
    && (forall stored | stored in s.log && stored.Some? :: Regular(stored.value))
    && (forall p | p in s.pending && p.Some? :: Regular(p.value.1))
    && (forall g | g in s.given :: Regular(g.q))
  }

  /** A regular query is asked for, or nothing is refused. */
  predicate Smooth(e: Event) {
    (e.Ask? ==> Regular(e.q)) && (e.Refresh? ==> e.refused == {})
  }

  lemma AskKeepsReady(s: State, c: nat, q: Query, traced: bool)
    requires AllReady(s) && Regular(q)
    ensures AllReady(Step(s, Ask(c, q, traced)))
  {
    AskKeepsInv(s, c, q, traced);
    var after := Step(s, Ask(c, q, traced));
    forall d | 0 <= d < |after.links| ensures Ready(after.links[d], after.log) {
      StaysAcross(s.links[d], s.log, after.log);
    }
  }

  lemma NothingRefused(s: State, link: Link)
    requires AllReady(s) && Ready(link, s.log)
    ensures Ready(Refreshed(link, s.log, {}).0, s.log) && Refreshed(link, s.log, {}).1
  {
    RefreshKeepsReady(link, s.log, {});
    forall k | 0 <= k < |Stored(s.log)| ensures Usable(Stored(s.log)[k].1) {
      EntryAt(s.log, ALL, k);
      assert s.log[Stored(s.log)[k].0 - 1] in s.log;
    }
  }

  lemma RefreshKeepsAllReady(s: State, c: nat)
    requires AllReady(s)
    ensures AllReady(Step(s, Refresh(c, {})))
  {
    hide Same, Usable, TextOf, Regular;
    RefreshKeepsInv(s, c, {});
    if c < |s.pending| && s.pending[c].Some? {
      assert s.pending[c] in s.pending;
      NothingRefused(s, s.links[c]);
    }
  }

  lemma {:induction false} SmoothRunIsReady(s: State, events: seq<Event>)
    requires AllReady(s) && forall e | e in events :: Smooth(e)
    ensures AllReady(After(s, events))
    decreases |events|
  {
    if events != [] {
      assert events[0] in events && forall e | e in events[1..] :: e in events;
      match events[0] {
        case Open => StepKeepsInv(s, Open);
        case Ask(c, q, traced) => AskKeepsReady(s, c, q, traced);
        case Refresh(c, refused) => RefreshKeepsAllReady(s, c);
      }
      SmoothRunIsReady(Step(s, events[0]), events[1..]);
    }
  }

  /** While nothing is refused, each connection has prepared exactly the stored ids up to its last one, and every entry
      given out runs, in every later state too, the text and parameters that serialising its query would. */
  lemma EveryEntryRunsItsText(events: seq<Event>, g: Given, params: seq<string>)
    requires (forall e | e in events :: Smooth(e)) && g in After(NO_STATE, events).given
    ensures var s := After(NO_STATE, events);
            && g.connection < |s.links| && Ready(s.links[g.connection], s.log) && Usable(g.q)
            && Runs(ById(g.id, params), s.links[g.connection]) == Runs(ByText(TextOf(g.q), params), s.links[g.connection])
  {
    hide Same, TextOf, Agree;
    SmoothRunIsReady(NO_STATE, events);
    var s := After(NO_STATE, events);
    var link, stored := s.links[g.connection], s.log[g.id - 1];
    assert stored in s.log && Lookup(link.prepared, g.id) == Some(TextOf(stored.value));
    if stored.value != g.q {
      RegularAgree(stored.value, g.q);
      SameText(stored.value, g.q);
    }
  }

  /** An entry for whose id the connection had to refresh runs its own text for good, whatever was refused before. */
  lemma RefreshedEntryRuns(link: Link, log: Log, id: nat, q: Query, refused: set<nat>)
    requires Sound(link, log) && Registered(log, id, q) && link.last < id && Answer(link, log, id, refused).1
    ensures Usable(log[id - 1].value)
    ensures Lookup(Answer(link, log, id, refused).0.prepared, id) == Some(TextOf(log[id - 1].value))
  {
    LastIsLast(log, id - 1);
    RefreshAt(link, log, refused, id);
    SoundIsNoneYet(link, log);
    PrepareSucceedsIff(link.prepared, Stored(log), link.last, refused);
    AboveIsFine(link, log, refused, id);
  }
}
