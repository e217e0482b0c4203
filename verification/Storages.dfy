/** The query manager's storage: one vector for each kind of query, in the order of ids. */
module Storages {
  import opened Wrappers
  import opened Registry

  type Entry = (nat, Query)

  type Storage = map<Kind, seq<Entry>>

  const KINDS: seq<Kind> := [RAW, SELECT, INSERT, DELETE, UPDATE]

  const ALL: set<Kind> := {RAW, SELECT, INSERT, DELETE, UPDATE}

  predicate IsOf(stored: Option<Query>, kinds: set<Kind>) {
    stored.Some? && KindOf(stored.value) in kinds
  }

  /** The stored queries of some kinds, with their ids. */
  function OfKinds(log: Log, kinds: set<Kind>): seq<Entry> {
    if log == [] then []
    else
      var n := |log| - 1;
      OfKinds(log[..n], kinds) + if IsOf(log[n], kinds) then [(n + 1, log[n].value)] else []
  }

  function OfKind(log: Log, kind: Kind): seq<Entry> {
    OfKinds(log, {kind})
  }

  /** Everything stored. */
  function Stored(log: Log): seq<Entry> {
    OfKinds(log, ALL)
  }

  lemma AllKinds(kind: Kind)
    ensures kind in ALL
  {}

  /** The highest id in the storage. */
  function LastId(log: Log): nat {
    if Stored(log) == [] then 0 else Stored(log)[|Stored(log)| - 1].0
  }

  ghost predicate Stores(storage: Storage, log: Log) {
    forall kind :: Lookup(storage, kind) == if OfKind(log, kind) == [] then None else Some(OfKind(log, kind))
  }

  lemma OfKindsSnoc(log: Log, stored: Option<Query>, kinds: set<Kind>)
    ensures OfKinds(log + [stored], kinds)
            == OfKinds(log, kinds) + if IsOf(stored, kinds) then [(|log| + 1, stored.value)] else []
  {
    assert (log + [stored])[..|log|] == log;
  }

  /** Each entry is what the log has under its id, and ids ascend. */
  lemma {:induction false} EntryAt(log: Log, kinds: set<Kind>, i: nat)
    requires i < |OfKinds(log, kinds)|
    ensures var (id, q) := OfKinds(log, kinds)[i];
            && 1 <= id <= |log| && log[id - 1] == Some(q) && KindOf(q) in kinds
            && |OfKinds(log[..id - 1], kinds)| == i
    decreases |log|
  {
    var n := |log| - 1;
    if i < |OfKinds(log[..n], kinds)| {
      EntryAt(log[..n], kinds, i);
      var id := OfKinds(log, kinds)[i].0;
      assert log[..n][..id - 1] == log[..id - 1];
    }
  }

  /** What the log has under each id stands among the entries of its kinds. */
  lemma {:induction false} StoredAt(log: Log, m: nat, kinds: set<Kind>)
    requires m <= |log|
    ensures OfKinds(log[..m], kinds) <= OfKinds(log, kinds)
    ensures m < |log| && IsOf(log[m], kinds) ==>
              && |OfKinds(log[..m], kinds)| < |OfKinds(log, kinds)|
              && OfKinds(log, kinds)[|OfKinds(log[..m], kinds)|] == (m + 1, log[m].value)
    decreases |log|
  {
    if m == |log| {
      assert log[..m] == log;
    } else {
      var n := |log| - 1;
      StoredAt(log[..n], m, kinds);
      assert log[..n][..m] == log[..m];
    }
  }

  lemma {:induction false} IdsAscend(log: Log, kinds: set<Kind>, i: nat, j: nat)
    requires i < j < |OfKinds(log, kinds)|
    ensures OfKinds(log, kinds)[i].0 < OfKinds(log, kinds)[j].0
    decreases |log|
  {
    var n := |log| - 1;
    if j < |OfKinds(log[..n], kinds)| {
      IdsAscend(log[..n], kinds, i, j);
    } else {
      EntryAt(log[..n], kinds, i);
    }
  }

  /** Every stored id is at most the last. */
  lemma LastIsLast(log: Log, m: nat)
    requires m < |log| && log[m].Some?
    ensures Stored(log) != [] && m + 1 <= LastId(log)
  {
    AllKinds(KindOf(log[m].value));
    StoredAt(log, m, ALL);
    var i := |OfKinds(log[..m], ALL)|;
    if i < |Stored(log)| - 1 {
      IdsAscend(log, ALL, i, |Stored(log)| - 1);
    }
  }

  lemma LastIsStored(log: Log)
    ensures LastId(log) <= |log|
    ensures LastId(log) > 0 ==> log[LastId(log) - 1].Some?
  {
    if Stored(log) != [] {
      EntryAt(log, ALL, |Stored(log)| - 1);
    }
  }

  class QueryManager {
    var currentId: nat
    var supported: Storage
    ghost var log: Log

    ghost predicate Valid()
      reads this
    {
      currentId == |log| + 1 && Stores(supported, log)
    }

    constructor ()
      ensures Valid() && log == []
    {
      currentId := 1;
      supported := map[];
      log := [];
    }

    /** Looks among the stored queries of the same kind, and stores the query if none is Equal. None is the exception of
        a traced query that cannot be serialised, which comes after its id was taken. */
    method GetOrSupportQueryId(q: Query, traced: bool) returns (id: Option<nat>)
      requires Valid()
      modifies this
      ensures Valid() && (log, id) == Register(old(log), q, traced)
    {
      hide Same, Usable, Stores, OfKinds;
      var kind := KindOf(q);
      VectorOf(supported, log, kind);
      if kind in supported {
        var vec := supported[kind];
        for i := 0 to |vec|
          invariant forall j | 0 <= j < i :: !Same(vec[j].1, q)
        {
          if Same(vec[i].1, q) {
            FoundInVector(log, q, i);
            return Some(vec[i].0);
          }
        }
      }
      NotInVector(log, q);
      var willUseId := currentId;
      currentId := currentId + 1;
      if traced && !Usable(q) {
        HoleKeepsStores(supported, log);
        log := log + [None];
        return None;
      }
      id := Some(willUseId);
      StoresSnoc(supported, log, q);
      supported := supported[kind := (if kind in supported then supported[kind] else []) + [(willUseId, q)]];
      log := log + [Some(q)];
    }
  }

  lemma VectorOf(storage: Storage, log: Log, kind: Kind)
    requires Stores(storage, log)
    ensures if kind in storage then storage[kind] == OfKind(log, kind) else OfKind(log, kind) == []
  {
    assert Lookup(storage, kind) == if OfKind(log, kind) == [] then None else Some(OfKind(log, kind));
  }

  /** The first Equal query of its kind is the first of all. */
  lemma FoundInVector(log: Log, q: Query, i: nat)
    requires var vec := OfKind(log, KindOf(q));
             i < |vec| && Same(vec[i].1, q) && forall j | 0 <= j < i :: !Same(vec[j].1, q)
    ensures var id := OfKind(log, KindOf(q))[i].0; id >= 1 && Find(log, q, 0) == Some(id - 1)
  {
    EntryAt(log, {KindOf(q)}, i);
    var id := OfKind(log, KindOf(q))[i].0;
    forall m | 0 <= m < id - 1 ensures !SameAt(log, m, q) {
      DifferentBefore(log, q, i, m);
    }
    FindIsFirst(log, q, id - 1);
  }

  lemma DifferentBefore(log: Log, q: Query, i: nat, m: nat)
    requires var vec := OfKind(log, KindOf(q));
             i < |vec| && forall j | 0 <= j < i :: !Same(vec[j].1, q)
    requires m < |log| && m + 1 < OfKind(log, KindOf(q))[i].0
    ensures !SameAt(log, m, q)
  {
    if SameAt(log, m, q) {
      SameKind(log[m].value, q);
      StoredAt(log, m, {KindOf(q)});
      var j := |OfKinds(log[..m], {KindOf(q)})|;
      if j > i {
        IdsAscend(log, {KindOf(q)}, i, j);
      }
    }
  }

  lemma NotInVector(log: Log, q: Query)
    requires forall j | 0 <= j < |OfKind(log, KindOf(q))| :: !Same(OfKind(log, KindOf(q))[j].1, q)
    ensures Find(log, q, 0).None?
  {
    forall m | 0 <= m < |log| ensures !SameAt(log, m, q) {
      if SameAt(log, m, q) {
        SameKind(log[m].value, q);
        InVector(log, m, KindOf(q));
      }
    }
  }

  lemma InVector(log: Log, m: nat, kind: Kind)
    requires m < |log| && IsOf(log[m], {kind})
    ensures exists j | 0 <= j < |OfKind(log, kind)| :: OfKind(log, kind)[j].1 == log[m].value
  {
    StoredAt(log, m, {kind});
    assert OfKind(log, kind)[|OfKinds(log[..m], {kind})|].1 == log[m].value;
  }

  lemma HoleKeepsStores(storage: Storage, log: Log)
    requires Stores(storage, log)
    ensures Stores(storage, log + [None])
  {
    forall kind: Kind
      ensures Lookup(storage, kind) == if OfKind(log + [None], kind) == [] then None else Some(OfKind(log + [None], kind))
    {
      OfKindsSnoc(log, None, {kind});
      VectorOf(storage, log, kind);
      assert OfKind(log + [None], kind) == OfKind(log, kind);
    }
  }

  lemma StoresSnoc(storage: Storage, log: Log, q: Query)
    requires Stores(storage, log)
    ensures Stores(storage[KindOf(q) := (if KindOf(q) in storage then storage[KindOf(q)] else []) + [(|log| + 1, q)]],
                   log + [Some(q)])
  {
    var kind := KindOf(q);
    VectorOf(storage, log, kind);
    var after := storage[kind := (if kind in storage then storage[kind] else []) + [(|log| + 1, q)]];
    assert after[kind] == OfKind(log, kind) + [(|log| + 1, q)];
    forall other: Kind
      ensures Lookup(after, other)
              == if OfKind(log + [Some(q)], other) == [] then None else Some(OfKind(log + [Some(q)], other))
    {
      OfKindsSnoc(log, Some(q), {other});
      VectorOf(storage, log, other);
      assert OfKind(log + [Some(q)], other) == if other == kind then after[kind] else OfKind(log, other);
      assert other != kind ==> Lookup(after, other) == Lookup(storage, other);
    }
  }
}
