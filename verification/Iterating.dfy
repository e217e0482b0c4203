/** Walking the stored queries in the order of their ids, over one vector for each kind: a k-way merge. */
module Iterating {
  import opened Wrappers
  import opened Registry
  import opened Storages

  /** The entry shown after `i` steps: ids ascend forward and descend in reverse. */
  function Visited(entries: seq<Entry>, reverse: bool, i: nat): Option<Entry> {
    if i >= |entries| then None
    else if reverse then Some(entries[|entries| - i - 1])
    else Some(entries[i])
  }

  lemma IdOrder(entries: seq<Entry>, a: nat, b: nat)
    requires Ascending(entries) && a < |entries| && b < |entries|
    ensures entries[a].0 < entries[b].0 <==> a < b
    ensures entries[a].0 == entries[b].0 <==> a == b
  {}

  type Place = (nat, nat)

  ghost predicate Ascending(entries: seq<Entry>) {
    forall a, b | 0 <= a < b < |entries| :: entries[a].0 < entries[b].0
  }

  /** Every entry stands in exactly one place of the vectors; the rank of its id is its index. */
  ghost predicate Divided(vectors: seq<seq<Entry>>, entries: seq<Entry>, places: seq<Place>, rank: map<nat, nat>) {
    && Ascending(entries) && |places| == |entries|
    && (forall m {:trigger places[m]} | 0 <= m < |entries| ::
          places[m].0 < |vectors| && places[m].1 < |vectors[places[m].0]| && vectors[places[m].0][places[m].1] == entries[m])
    && (forall j, p {:trigger vectors[j][p]} | 0 <= j < |vectors| && 0 <= p < |vectors[j]| ::
          PlacedAt(vectors[j][p], entries, places, rank, (j, p)))
    && (forall j, p, q | 0 <= j < |vectors| && 0 <= p < q < |vectors[j]| :: vectors[j][p].0 < vectors[j][q].0)
  }

  ghost predicate PlacedAt(entry: Entry, entries: seq<Entry>, places: seq<Place>, rank: map<nat, nat>, place: Place)
    requires |places| == |entries|
  {
    entry.0 in rank && rank[entry.0] < |entries| && entries[rank[entry.0]] == entry && places[rank[entry.0]] == place
  }

  class QueriesIterator {
    const vectors: seq<seq<Entry>>
    const reverse: bool
    /** How two exhausted cursors compare: the source compares the addresses of two local copies. */
    const tie: bool
    var next: seq<nat>
    var current: (nat, nat)
    ghost const entries: seq<Entry>
    ghost const places: seq<Place>
    ghost const rank: map<nat, nat>
    ghost var steps: nat

    function EntryOf(j: nat, cursor: nat): Entry
      requires j < |vectors| && cursor < |vectors[j]|
    {
      if reverse then vectors[j][|vectors[j]| - 1 - cursor] else vectors[j][cursor]
    }

    /** Among the first `seen` entries shown. */
    ghost predicate Behind(id: nat, seen: nat)
      requires seen <= |entries|
    {
      seen > 0 && if reverse then id >= entries[|entries| - seen].0 else id <= entries[seen - 1].0
    }

    /** The cursors after `seen` entries: just the entries behind them have been shown. */
    ghost predicate CursorsAt(cursors: seq<nat>, seen: nat) {
      && |cursors| == |vectors| && seen <= |entries|
      && (forall j | 0 <= j < |cursors| :: cursors[j] <= |vectors[j]|)
      && (forall j, p | 0 <= j < |cursors| && 0 <= p < |vectors[j]| :: p < cursors[j] <==> Behind(EntryOf(j, p).0, seen))
    }

    ghost function Seen(): nat
      reads this
    {
      if steps < |entries| then steps + 1 else |entries|
    }

    /** Which exhausted cursor is chosen when all are. */
    function EndBorder(n: nat): nat {
      if tie && n > 0 then n - 1 else 0
    }

    ghost predicate Valid()
      reads this
    {
      && |vectors| > 0 && Divided(vectors, entries, places, rank)
      && CursorsAt(next, Seen())
      && current.0 < |vectors|
      && (steps < |entries| ==>
            current.1 < |vectors[current.0]| && Some(EntryOf(current.0, current.1)) == Visited(entries, reverse, steps))
      && (steps >= |entries| ==> current == (EndBorder(|vectors|), |vectors[EndBorder(|vectors|)]|))
    }

    predicate Less(i: nat, j: nat, cursors: seq<nat>)
      requires |cursors| == |vectors| && i < |vectors| && j < |vectors|
      requires cursors[i] <= |vectors[i]| && cursors[j] <= |vectors[j]|
    {
      if cursors[i] == |vectors[i]| && cursors[j] == |vectors[j]| then tie
      else if cursors[j] == |vectors[j]| then true
      else if cursors[i] == |vectors[i]| then false
      else if reverse then EntryOf(i, cursors[i]).0 > EntryOf(j, cursors[j]).0
      else EntryOf(i, cursors[i]).0 < EntryOf(j, cursors[j]).0
    }

    /** No cursor among the first `n` points to an entry that comes before that of cursor `b`. */
    ghost predicate Best(b: nat, n: nat, cursors: seq<nat>)
      requires |cursors| == |vectors|
      requires forall j | 0 <= j < |cursors| :: cursors[j] <= |vectors[j]|
    {
      && b < n <= |vectors|
      && (cursors[b] == |vectors[b]| ==>
            (forall j | 0 <= j < n :: cursors[j] == |vectors[j]|) && b == EndBorder(n))
      && (cursors[b] < |vectors[b]| ==>
            forall j | 0 <= j < n && cursors[j] < |vectors[j]| ::
              if reverse then EntryOf(j, cursors[j]).0 <= EntryOf(b, cursors[b]).0
              else EntryOf(b, cursors[b]).0 <= EntryOf(j, cursors[j]).0)
    }

    /** The cursor whose entry comes first; an exhausted one only when all are. */
    method GetBorderElement(cursors: seq<nat>) returns (border: nat)
      requires |cursors| == |vectors| > 0
      requires forall j | 0 <= j < |cursors| :: cursors[j] <= |vectors[j]|
      ensures Best(border, |vectors|, cursors)
    {
      border := 0;
      for i := 1 to |vectors|
        invariant Best(border, i, cursors)
      {
        if Less(i, border, cursors) {
          border := i;
        }
      }
    }

    /** At the first entry, or at the end. The source reads a border element, so there must be a vector. */
    constructor (isEnd: bool, vectors: seq<seq<Entry>>, reverse: bool, tie: bool, ghost entries: seq<Entry>,
                 ghost places: seq<Place>, ghost rank: map<nat, nat>)
      requires Divided(vectors, entries, places, rank) && entries != []
      ensures Valid() && steps == (if isEnd then |entries| else 0)
      ensures this.vectors == vectors && this.entries == entries && this.places == places && this.rank == rank
      ensures this.reverse == reverse && this.tie == tie
    {
      hide Divided, Best, Behind, EndBorder;
      var cursors: seq<nat> := [];
      for j := 0 to |vectors|
        invariant |cursors| == j
        invariant forall i | 0 <= i < j :: cursors[i] == if isEnd then |vectors[i]| else 0
      {
        cursors := cursors + [if isEnd then |vectors[j]| else 0];
      }
      this.vectors := vectors;
      this.reverse := reverse;
      this.tie := tie;
      this.entries := entries;
      this.places := places;
      this.rank := rank;
      next := cursors;
      current := (0, 0);
      steps := if isEnd then |entries| else 0;
      new;
      ghost var seen := if isEnd then |entries| else 0;
      StartsAt(next, isEnd);
      var border := GetBorderElement(next);
      BorderIsNext(next, seen, border);
      current := (border, next[border]);
      if !isEnd {
        next := next[border := next[border] + 1];
      }
    }

    /** All cursors at their beginnings have passed nothing, at their ends everything. */
    lemma StartsAt(cursors: seq<nat>, isEnd: bool)
      requires |vectors| > 0 || entries != []
      requires Divided(vectors, entries, places, rank) && |cursors| == |vectors|
      requires forall j | 0 <= j < |cursors| :: cursors[j] == if isEnd then |vectors[j]| else 0
      ensures |vectors| > 0 && CursorsAt(cursors, if isEnd then |entries| else 0)
    {
      if entries != [] {
        var place := places[0];
      }
      forall j, p | 0 <= j < |cursors| && 0 <= p < |vectors[j]|
        ensures p < cursors[j] <==> Behind(EntryOf(j, p).0, if isEnd then |entries| else 0)
      {
        RankOf(j, p, if isEnd then |entries| else 0);
      }
    }

    method GetField() returns (field: Option<Entry>)
      requires Valid()
      ensures field == Visited(entries, reverse, steps)
    {
      field := if current.1 < |vectors[current.0]| then Some(EntryOf(current.0, current.1)) else None;
    }

    method Next()
      requires Valid()
      modifies this
      ensures Valid() && steps == old(steps) + 1
    {
      hide Divided, Best, Behind, EndBorder;
      var border := GetBorderElement(next);
      BorderIsNext(next, Seen(), border);
      current := (border, next[border]);
      if current.1 < |vectors[border]| {
        next := next[border := next[border] + 1];
      }
      steps := steps + 1;
    }

    /** Two iterators over the same storage are equal exactly when they show the same entry or are both at the end. */
    method Equals(other: QueriesIterator) returns (equal: bool)
      requires Valid() && other.Valid()
      requires reverse == other.reverse && tie == other.tie && vectors == other.vectors
      requires entries == other.entries && places == other.places && rank == other.rank
      ensures equal <==> Visited(entries, reverse, steps) == Visited(entries, reverse, other.steps)
    {
      equal := current == other.current;
    }

    /** The index of the next entry. */
    ghost function Upcoming(seen: nat): nat
      requires seen < |entries|
    {
      if reverse then |entries| - seen - 1 else seen
    }

    /** The border element is the next id, and its cursor alone moves; with none left every cursor is exhausted. */
    lemma BorderIsNext(cursors: seq<nat>, seen: nat, border: nat)
      requires Divided(vectors, entries, places, rank) && CursorsAt(cursors, seen) && Best(border, |vectors|, cursors)
      ensures seen == |entries| ==> border == EndBorder(|vectors|) && cursors[border] == |vectors[border]|
      ensures seen < |entries| ==>
                && cursors[border] < |vectors[border]|
                && Some(EntryOf(border, cursors[border])) == Visited(entries, reverse, seen)
                && CursorsAt(cursors[border := cursors[border] + 1], seen + 1)
    {
      if seen < |entries| {
        MineShows(cursors, seen);
        var mine := places[Upcoming(seen)].0;
        assert EntryOf(mine, cursors[mine]) == entries[Upcoming(seen)];
        Ahead(cursors, seen, border);
        MovesOne(cursors, seen, border);
      } else if cursors[border] < |vectors[border]| {
        RankOf(border, cursors[border], seen);
      }
    }

    /** An entry of the vectors is behind exactly when its rank is. */
    lemma RankOf(j: nat, p: nat, seen: nat)
      requires Divided(vectors, entries, places, rank) && j < |vectors| && p < |vectors[j]| && seen <= |entries|
      ensures var r := rank[EntryOf(j, p).0];
              && r < |entries| && entries[r] == EntryOf(j, p)
              && places[r] == (j, if reverse then |vectors[j]| - 1 - p else p)
              && (Behind(EntryOf(j, p).0, seen) <==> if reverse then r + seen >= |entries| else r < seen)
    {
      var i := if reverse then |vectors[j]| - 1 - p else p;
      assert PlacedAt(vectors[j][i], entries, places, rank, (j, i));
      var r := rank[vectors[j][i].0];
      if seen > 0 {
        var edge := if reverse then |entries| - seen else seen - 1;
        IdOrder(entries, r, edge);
        IdOrder(entries, edge, r);
      }
    }

    /** What a cursor shows comes with the next entry or after it. */
    lemma Ahead(cursors: seq<nat>, seen: nat, j: nat)
      requires Divided(vectors, entries, places, rank) && CursorsAt(cursors, seen) && seen < |entries|
      requires j < |vectors| && cursors[j] < |vectors[j]|
      ensures var id := EntryOf(j, cursors[j]).0;
              && (if reverse then id <= entries[Upcoming(seen)].0 else id >= entries[Upcoming(seen)].0)
              && (id == entries[Upcoming(seen)].0 ==> EntryOf(j, cursors[j]) == entries[Upcoming(seen)])
    {
      RankOf(j, cursors[j], seen);
      var r, m := rank[EntryOf(j, cursors[j]).0], Upcoming(seen);
      IdOrder(entries, r, m);
      IdOrder(entries, m, r);
    }

    /** The cursor of the next entry's vector shows it. */
    lemma MineShows(cursors: seq<nat>, seen: nat)
      requires Divided(vectors, entries, places, rank) && CursorsAt(cursors, seen) && seen < |entries|
      ensures var (j, _) := places[Upcoming(seen)];
              j < |vectors| && cursors[j] < |vectors[j]| && EntryOf(j, cursors[j]) == entries[Upcoming(seen)]
    {
      var m := Upcoming(seen);
      var (j, i) := places[m];
      var p := if reverse then |vectors[j]| - 1 - i else i;
      assert EntryOf(j, p) == entries[m];
      RankOf(j, p, seen);
      IdOrder(entries, rank[EntryOf(j, p).0], m);
      assert cursors[j] <= p;
      Ahead(cursors, seen, j);
    }

    lemma MovesOne(cursors: seq<nat>, seen: nat, border: nat)
      requires Divided(vectors, entries, places, rank) && CursorsAt(cursors, seen) && seen < |entries|
      requires border < |vectors| && cursors[border] < |vectors[border]|
      requires EntryOf(border, cursors[border]) == entries[Upcoming(seen)]
      ensures CursorsAt(cursors[border := cursors[border] + 1], seen + 1)
    {
      var moved := cursors[border := cursors[border] + 1];
      RankOf(border, cursors[border], seen);
      IdOrder(entries, rank[EntryOf(border, cursors[border]).0], Upcoming(seen));
      forall j, p | 0 <= j < |moved| && 0 <= p < |vectors[j]|
        ensures p < moved[j] <==> Behind(EntryOf(j, p).0, seen + 1)
      {
        RankOf(j, p, seen);
        RankOf(j, p, seen + 1);
        assert p < cursors[j] <==> Behind(EntryOf(j, p).0, seen);
      }
    }
  }

  // ---------- Every storage that registering reaches ----------

  /** The kinds that have a vector, in the order of the storage. */
  function Present(storage: Storage, kinds: seq<Kind>): (present: seq<Kind>)
    ensures forall kind :: kind in present <==> kind in kinds && kind in storage
    ensures (forall i, j | 0 <= i < j < |kinds| :: kinds[i] != kinds[j]) ==>
              forall i, j | 0 <= i < j < |present| :: present[i] != present[j]
    decreases |kinds|
  {
    if kinds == [] then []
    else (if kinds[0] in storage then [kinds[0]] else []) + Present(storage, kinds[1..])
  }

  lemma KindsAreAll()
    ensures (forall kind: Kind :: kind in KINDS) && forall i, j | 0 <= i < j < |KINDS| :: KINDS[i] != KINDS[j]
  {
    forall kind: Kind ensures kind in KINDS {
      match kind
      case RAW => assert KINDS[0] == RAW;
      case SELECT => assert KINDS[1] == SELECT;
      case INSERT => assert KINDS[2] == INSERT;
      case DELETE => assert KINDS[3] == DELETE;
      case UPDATE => assert KINDS[4] == UPDATE;
    }
  }

  /** The vectors are those of the present kinds, which are all that have queries. */
  ghost predicate Holds(vectors: seq<seq<Entry>>, log: Log, present: seq<Kind>) {
    && |vectors| == |present| && (forall i | 0 <= i < |present| :: vectors[i] == OfKind(log, present[i]))
    && (forall a, b | 0 <= a < b < |present| :: present[a] != present[b])
    && (forall kind | OfKind(log, kind) != [] :: kind in present)
  }

  lemma KindsPresent(storage: Storage, log: Log, kinds: seq<Kind>)
    requires Stores(storage, log) && forall kind :: kind in kinds
    ensures forall kind | OfKind(log, kind) != [] :: kind in Present(storage, kinds)
    ensures forall kind | kind in Present(storage, kinds) :: kind in storage && storage[kind] == OfKind(log, kind)
  {
    forall kind: Kind
      ensures OfKind(log, kind) != [] ==> kind in Present(storage, kinds)
      ensures kind in Present(storage, kinds) ==> kind in storage && storage[kind] == OfKind(log, kind)
    {
      VectorOf(storage, log, kind);
    }
  }

  /** Where entry `m` stands. */
  ghost predicate Stands(log: Log, present: seq<Kind>, m: nat, place: Place) {
    && m < |Stored(log)| && place.0 < |present|
    && place.1 < |OfKind(log, present[place.0])| && OfKind(log, present[place.0])[place.1] == Stored(log)[m]
  }

  lemma PlaceOf(vectors: seq<seq<Entry>>, log: Log, present: seq<Kind>, m: nat) returns (place: Place)
    requires Holds(vectors, log, present) && m < |Stored(log)|
    ensures Stands(log, present, m, place)
  {
    EntryAt(log, ALL, m);
    var (id, q) := Stored(log)[m];
    StoredAt(log, id - 1, {KindOf(q)});
    assert OfKind(log, KindOf(q)) != [];
    var j :| 0 <= j < |present| && present[j] == KindOf(q);
    place := (j, |OfKinds(log[..id - 1], {KindOf(q)})|);
  }

  lemma {:induction false} PlacesOf(vectors: seq<seq<Entry>>, log: Log, present: seq<Kind>, n: nat) returns (places: seq<Place>)
    requires Holds(vectors, log, present) && n <= |Stored(log)|
    ensures |places| == n && forall m | 0 <= m < n :: Stands(log, present, m, places[m])
  {
    if n == 0 {
      places := [];
    } else {
      var before := PlacesOf(vectors, log, present, n - 1);
      var last := PlaceOf(vectors, log, present, n - 1);
      places := before + [last];
    }
  }

  /** The index of each stored id among all. */
  ghost function Ranks(log: Log): map<nat, nat> {
    map id: nat | 1 <= id <= |log| :: RankIn(log, id)
  }

  ghost function RankIn(log: Log, id: nat): nat
    requires 1 <= id <= |log|
  {
    |OfKinds(log[..id - 1], ALL)|
  }

  /** Two places with one id are the same. */
  lemma OnePlace(log: Log, present: seq<Kind>, j: nat, p: nat, k: nat, q: nat)
    requires forall a, b | 0 <= a < b < |present| :: present[a] != present[b]
    requires j < |present| && p < |OfKind(log, present[j])| && k < |present| && q < |OfKind(log, present[k])|
    requires OfKind(log, present[j])[p].0 == OfKind(log, present[k])[q].0
    ensures (j, p) == (k, q)
  {
    EntryAt(log, {present[j]}, p);
    EntryAt(log, {present[k]}, q);
  }

  lemma EntryIsPlaced(vectors: seq<seq<Entry>>, log: Log, present: seq<Kind>, places: seq<Place>, j: nat, p: nat)
    requires Holds(vectors, log, present) && j < |vectors| && p < |vectors[j]|
    requires |places| == |Stored(log)| && forall m | 0 <= m < |places| :: Stands(log, present, m, places[m])
    ensures PlacedAt(vectors[j][p], Stored(log), places, Ranks(log), (j, p))
  {
    EntryAt(log, {present[j]}, p);
    var (id, q) := vectors[j][p];
    AllKinds(KindOf(q));
    StoredAt(log, id - 1, ALL);
    var m := RankIn(log, id);
    assert Stands(log, present, m, places[m]);
    OnePlace(log, present, j, p, places[m].0, places[m].1);
  }

  lemma VectorsDivide(vectors: seq<seq<Entry>>, log: Log, present: seq<Kind>, places: seq<Place>)
    requires Holds(vectors, log, present)
    requires |places| == |Stored(log)| && forall m | 0 <= m < |places| :: Stands(log, present, m, places[m])
    ensures Divided(vectors, Stored(log), places, Ranks(log))
  {
    forall m {:trigger places[m]} | 0 <= m < |Stored(log)|
      ensures places[m].0 < |vectors| && places[m].1 < |vectors[places[m].0]|
      ensures vectors[places[m].0][places[m].1] == Stored(log)[m]
    {
      assert Stands(log, present, m, places[m]);
    }
    forall j, p {:trigger vectors[j][p]} | 0 <= j < |vectors| && 0 <= p < |vectors[j]|
      ensures PlacedAt(vectors[j][p], Stored(log), places, Ranks(log), (j, p))
    {
      EntryIsPlaced(vectors, log, present, places, j, p);
    }
    forall j, p, q | 0 <= j < |vectors| && 0 <= p < q < |vectors[j]| ensures vectors[j][p].0 < vectors[j][q].0 {
      IdsAscend(log, {present[j]}, p, q);
    }
    forall a, b | 0 <= a < b < |Stored(log)| ensures Stored(log)[a].0 < Stored(log)[b].0 {
      IdsAscend(log, ALL, a, b);
    }
  }

  method VectorsOfKinds(storage: Storage, kinds: seq<Kind>, ghost log: Log)
    returns (vectors: seq<seq<Entry>>, ghost present: seq<Kind>)
    requires Stores(storage, log)
    requires (forall kind :: kind in kinds) && forall i, j | 0 <= i < j < |kinds| :: kinds[i] != kinds[j]
    ensures Holds(vectors, log, present)
  {
    hide Stores, OfKind;
    var found := Present(storage, kinds);
    KindsPresent(storage, log, kinds);
    vectors := [];
    for j := 0 to |found|
      invariant |vectors| == j
      invariant forall i | 0 <= i < j :: vectors[i] == OfKind(log, found[i])
    {
      assert found[j] in found;
      vectors := vectors + [storage[found[j]]];
    }
    present := found;
  }

  /** The vectors of the storage, in its order. */
  method StoredVectors(storage: Storage, ghost log: Log) returns (vectors: seq<seq<Entry>>, ghost places: seq<Place>)
    requires Stores(storage, log)
    ensures Divided(vectors, Stored(log), places, Ranks(log))
  {
    KindsAreAll();
    ghost var present;
    vectors, present := VectorsOfKinds(storage, KINDS, log);
    places := PlacesOf(vectors, log, present, |Stored(log)|);
    VectorsDivide(vectors, log, present, places);
  }

  /** Compares with an end iterator made for the purpose. */
  method AtEnd(it: QueriesIterator) returns (atEnd: bool)
    requires it.Valid() && it.entries != []
    ensures atEnd <==> it.steps >= |it.entries|
  {
    var end := new QueriesIterator(true, it.vectors, it.reverse, it.tie, it.entries, it.places, it.rank);
    atEnd := it.Equals(end);
  }

  method WalkAll(it: QueriesIterator) returns (entries: seq<Entry>)
    requires it.Valid() && it.steps == 0 && it.entries != []
    modifies it
    ensures |entries| == |it.entries|
    ensures forall i | 0 <= i < |entries| :: Some(entries[i]) == Visited(it.entries, it.reverse, i)
  {
    entries := [];
    var atEnd := AtEnd(it);
    while !atEnd
      invariant it.Valid() && it.steps == |entries| <= |it.entries|
      invariant atEnd <==> |entries| == |it.entries|
      invariant forall i | 0 <= i < |entries| :: Some(entries[i]) == Visited(it.entries, it.reverse, i)
      decreases |it.entries| - |entries|
    {
      var field := it.GetField();
      entries := entries + [field.value];
      it.Next();
      atEnd := AtEnd(it);
    }
  }

  /** Walks the whole storage: every stored id exactly once, ascending or descending, each with its own query. */
  method Walk(storage: Storage, reverse: bool, tie: bool, ghost log: Log) returns (entries: seq<Entry>)
    requires Stores(storage, log) && Stored(log) != []
    ensures |entries| == |Stored(log)|
    ensures forall i | 0 <= i < |entries| :: Some(entries[i]) == Visited(Stored(log), reverse, i)
    ensures forall i, j | 0 <= i < j < |entries| :: if reverse then entries[i].0 > entries[j].0 else entries[i].0 < entries[j].0
    ensures forall id: nat, q :: (id, q) in entries <==> 1 <= id <= |log| && log[id - 1] == Some(q)
  {
    ghost var places;
    var vectors;
    vectors, places := StoredVectors(storage, log);
    var it := new QueriesIterator(false, vectors, reverse, tie, Stored(log), places, Ranks(log));
    entries := WalkAll(it);
    WalkedInOrder(entries, log, reverse);
  }

  lemma WalkedInOrder(entries: seq<Entry>, log: Log, reverse: bool)
    requires |entries| == |Stored(log)|
    requires forall i | 0 <= i < |entries| :: Some(entries[i]) == Visited(Stored(log), reverse, i)
    ensures forall i, j | 0 <= i < j < |entries| :: if reverse then entries[i].0 > entries[j].0 else entries[i].0 < entries[j].0
    ensures forall id: nat, q :: (id, q) in entries <==> 1 <= id <= |log| && log[id - 1] == Some(q)
  {
    var stored := Stored(log);
    forall i, j | 0 <= i < j < |entries| ensures if reverse then entries[i].0 > entries[j].0 else entries[i].0 < entries[j].0 {
      IdsAscend(log, ALL, i, j);
      IdsAscend(log, ALL, |stored| - 1 - j, |stored| - 1 - i);
    }
    forall id: nat, q ensures (id, q) in entries <==> 1 <= id <= |log| && log[id - 1] == Some(q) {
      WalkedIsStored(log, id, q);
      if (id, q) in stored {
        var i :| 0 <= i < |stored| && stored[i] == (id, q);
        assert entries[if reverse then |stored| - 1 - i else i] == (id, q);
      }
      if (id, q) in entries {
        var i :| 0 <= i < |entries| && entries[i] == (id, q);
        assert stored[if reverse then |stored| - 1 - i else i] == (id, q);
      }
    }
  }

  /** What is walked is exactly what the log holds: each id with its own query. */
  lemma WalkedIsStored(log: Log, id: nat, q: Query)
    ensures (id, q) in Stored(log) <==> 1 <= id <= |log| && log[id - 1] == Some(q)
  {
    if 1 <= id <= |log| && log[id - 1] == Some(q) {
      AllKinds(KindOf(q));
      StoredAt(log, id - 1, ALL);
    } else if (id, q) in Stored(log) {
      var i :| 0 <= i < |Stored(log)| && Stored(log)[i] == (id, q);
      EntryAt(log, ALL, i);
    }
  }
}
