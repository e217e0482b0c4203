/** The connection pool: a list of free connections and counters of fixed width that implement a quota. */
module Pools {
  import opened Wrappers

  const TWO_31: int := 0x8000_0000
  const TWO_32: int := 0x1_0000_0000
  const TWO_64: int := 0x1_0000_0000_0000_0000
  const DEFAULT_CONNECTIONS_COUNT: nat := 4

  /** Conversions to uint32_t, size_t and int32_t. */
  function U32(x: int): (r: nat)
    ensures r < TWO_32
  {
    x % TWO_32
  }

  function U64(x: int): (r: nat)
    ensures r < TWO_64
  {
    x % TWO_64
  }

  function I32(x: int): (r: int)
    ensures -TWO_31 <= r < TWO_31
  {
    if U32(x) < TWO_31 then U32(x) else U32(x) - TWO_32
  }

  /** Connections are named by the order of their creation; `out` are those handed out and not yet returned. */
  datatype Pool = Pool(free: seq<nat>, toCreate: nat, toDelete: nat, out: set<nat>, born: nat)

  /** Takes the last free connection, or creates one: under the quota, or to be abandoned later. */
  function Get(p: Pool, creates: bool): (Pool, Option<nat>) {
    if p.free != [] then
      var id := p.free[|p.free| - 1];
      (p.(free := p.free[..|p.free| - 1], out := p.out + {id}), Some(id))
    else if !creates then (p, None)
    else if p.toCreate > 0 then
      (p.(toCreate := p.toCreate - 1, out := p.out + {p.born}, born := p.born + 1), Some(p.born))
    else
      (p.(toDelete := U32(p.toDelete + 1), out := p.out + {p.born}, born := p.born + 1), Some(p.born))
  }

  function Return(p: Pool, id: nat): Pool {
    if p.toDelete > 0 then p.(toDelete := p.toDelete - 1, out := p.out - {id})
    else p.(free := p.free + [id], out := p.out - {id})
  }

  /** New connection settings: the free connections are dropped and counted as to be created. */
  function Reset(p: Pool): Pool {
    p.(free := [], toCreate := U32(p.toCreate + |p.free|))
  }

  // ---------- Resizing ----------

  /** Free connections and connections to create: all the source counts. */
  function Total(p: Pool): nat {
    |p.free| + p.toCreate
  }

  /** What the resize should do: keep the free connections up to n and create the rest. */
  function Resized(p: Pool, n: nat): Pool {
    var kept := if n < |p.free| then n else |p.free|;
    p.(free := p.free[..kept], toCreate := n - kept)
  }

  /** What its arithmetic does. None is the one case that is undefined: negating the least int32_t. */
  function ResizedInWords(p: Pool, n: nat): Option<Pool> {
    var diff := I32(U64(n - U64(|p.free| + p.toCreate)));
    if diff > 0 then Some(p.(toCreate := U32(p.toCreate + diff)))
    else if diff == 0 then Some(p)
    else if diff == -TWO_31 then None
    else Some(CutInWords(p, -diff))
  }

  /** A list of free connections is never made longer. */
  lemma SizeFits(free: nat, cut: int)
    requires 0 < cut < TWO_31
    ensures I32(U64(cut - free)) < 0 ==> U64(free - cut) <= free
  {
    if free < cut {
      assert U64(cut - free) == cut - free;
    }
  }

  /** Cuts connections to create first, then free ones, and counts the rest as to be deleted. */
  function CutInWords(p: Pool, cut: int): Pool {
    var afterNew := I32(U32(cut) - p.toCreate);
    var toCreate := if afterNew >= 0 then 0 else U32(p.toCreate - cut);
    if afterNew <= 0 then p.(toCreate := toCreate)
    else
      var afterFree := I32(U64(afterNew - |p.free|));
      var size := if afterFree >= 0 then 0 else U64(|p.free| - afterNew);
      SizeFits(|p.free|, afterNew);
      p.(toCreate := toCreate, free := p.free[..size],
         toDelete := if afterFree > 0 then U32(p.toDelete + afterFree) else p.toDelete)
  }

  ghost predicate InWidth(p: Pool) {
    p.toCreate < TWO_32 && p.toDelete < TWO_32
  }

  lemma InRange(x: int)
    ensures 0 <= x < TWO_32 ==> U32(x) == x
    ensures -TWO_31 <= x < TWO_31 ==> I32(x) == x
    ensures TWO_31 <= x < TWO_32 ==> I32(x) == x - TWO_32
    ensures -TWO_32 <= x < -TWO_31 ==> I32(x) == x + TWO_32
  {
    if -TWO_32 <= x < 0 {
      assert U32(x) == x + TWO_32 || x == -TWO_32;
    }
  }

  lemma Shifts(x: int, j: int)
    ensures U32(x + j * TWO_32) == U32(x)
  {
    Divided(x + j * TWO_32, x / TWO_32 + j, U32(x));
  }

  lemma Divided(x: int, quotient: int, rest: int)
    requires x == quotient * TWO_32 + rest && 0 <= rest < TWO_32
    ensures U32(x) == rest
  {}

  /** Only the low 32 bits of what is converted matter. */
  lemma SameLow(x: int, y: int)
    ensures U32(U32(x) + y) == U32(x + y) && U32(y - U32(x)) == U32(y - x)
    ensures U32(U64(x) + y) == U32(x + y) && U32(y - U64(x)) == U32(y - x)
  {
    Shifts(U32(x) + y, x / TWO_32);
    Shifts(y - U32(x), -(x / TWO_32));
    Shifts(U64(x) + y, x / TWO_64 * TWO_32);
    Shifts(y - U64(x), -(x / TWO_64 * TWO_32));
  }

  // ---------- When the words are right ----------

  /** The first difference as the code sees it, and what it computes is left to cut of the free connections. */
  function Difference(p: Pool, n: nat): int {
    I32(n - Total(p))
  }

  function FreeLeft(p: Pool, n: nat): int {
    I32(|p.free| - n)
  }

  /** What the words come to: unless free connections are cut, the connections to create are n less the free ones. */
  lemma WordsCompute(p: Pool, n: nat)
    requires InWidth(p)
    ensures ResizedInWords(p, n) ==
            if Difference(p, n) == -TWO_31 then None
            else if Difference(p, n) >= 0 || FreeLeft(p, n) <= 0 then Some(p.(toCreate := U32(n - |p.free|)))
            else Some(CutFree(p, n))
  {
    DifferenceInWords(p, n);
    LowOfDifference(p, n);
    InRange(p.toCreate);
    var diff := Difference(p, n);
    if -TWO_31 < diff < 0 {
      CutInWordsComputes(p, n, -diff);
    }
  }

  lemma LowOfDifference(p: Pool, n: nat)
    ensures U32(Difference(p, n)) == U32(n - Total(p))
    ensures U32(p.toCreate + Difference(p, n)) == U32(n - |p.free|)
  {
    LowOf(n - Total(p));
    SameLow(Difference(p, n), p.toCreate);
    SameLow(n - Total(p), p.toCreate);
  }

  lemma LowOf(x: int)
    ensures U32(I32(x)) == U32(x)
  {
    Shifts(I32(x), 1);
    InRange(U32(x));
  }

  lemma DifferenceInWords(p: Pool, n: nat)
    ensures I32(U64(n - U64(|p.free| + p.toCreate))) == Difference(p, n)
  {
    SameLow(n - U64(Total(p)), 0);
    SameLow(Total(p), n);
  }

  /** The case that reaches the free connections. */
  function CutFree(p: Pool, n: nat): Pool
    requires FreeLeft(p, n) > 0
  {
    var over := I32(0 - n);
    SizeFits(|p.free|, FreeLeft(p, n));
    SameLow(FreeLeft(p, n) - |p.free|, 0);
    OverIs(p, n);
    p.(toCreate := 0, free := p.free[..if over >= 0 then 0 else U64(|p.free| - FreeLeft(p, n))],
       toDelete := if over > 0 then U32(p.toDelete + over) else p.toDelete)
  }

  lemma OverIs(p: Pool, n: nat)
    ensures I32(U64(FreeLeft(p, n) - |p.free|)) == I32(0 - n)
  {
    SameLow(FreeLeft(p, n) - |p.free|, 0);
    LowOf(|p.free| - n);
    SameLow(FreeLeft(p, n), 0 - |p.free|);
    SameLow(|p.free| - n, 0 - |p.free|);
  }

  /** Numbers with the same low bits stay so under addition and subtraction. */
  lemma Congruent(x: int, y: int, z: int)
    requires U32(x) == U32(y)
    ensures U32(z + x) == U32(z + y) && U32(z - x) == U32(z - y)
  {
    var j := x / TWO_32 - y / TWO_32;
    assert x == y + j * TWO_32;
    Shifts(z + y, j);
    Shifts(z - y, -j);
  }

  lemma LeftAfterNew(p: Pool, n: nat, cut: int)
    requires 0 < cut < TWO_31 && U32(-cut) == U32(n - Total(p))
    ensures I32(U32(cut) - p.toCreate) == FreeLeft(p, n) && U32(p.toCreate - cut) == U32(n - |p.free|)
  {
    InRange(cut);
    Congruent(-cut, n - Total(p), 0 - p.toCreate);
    Congruent(-cut, n - Total(p), p.toCreate);
  }

  lemma NothingLeft(p: Pool, n: nat)
    requires FreeLeft(p, n) == 0
    ensures U32(n - |p.free|) == 0
  {
    Congruent(|p.free| - n, 0, 0);
  }

  lemma CutInWordsComputes(p: Pool, n: nat, cut: int)
    requires InWidth(p) && 0 < cut < TWO_31 && U32(-cut) == U32(n - Total(p))
    ensures CutInWords(p, cut) == if FreeLeft(p, n) <= 0 then p.(toCreate := U32(n - |p.free|)) else CutFree(p, n)
  {
    LeftAfterNew(p, n, cut);
    if FreeLeft(p, n) == 0 {
      NothingLeft(p, n);
    } else if FreeLeft(p, n) > 0 {
      OverIs(p, n);
    }
  }

  /** A resize computes the right sizes exactly in these cases, for any pool: nothing overflows the negation, and
      either no free connection is cut and none had to be, or all are to go, or the cut is one the words can count. */
  ghost predicate CountsRight(p: Pool, n: nat) {
    && Difference(p, n) != -TWO_31
    && if Difference(p, n) >= 0 || FreeLeft(p, n) <= 0 then n >= |p.free|
       else n == 0 || (n <= TWO_31 && n <= |p.free| && |p.free| - n < TWO_31)
  }

  lemma ResizeRightIff(p: Pool, n: nat)
    requires InWidth(p) && |p.free| < TWO_64 && n < TWO_32
    ensures ResizedInWords(p, n) == Some(Resized(p, n)) <==> CountsRight(p, n)
  {
    WordsCompute(p, n);
    assert p.free[..|p.free|] == p.free;
    if Difference(p, n) >= 0 || FreeLeft(p, n) <= 0 {
      InRange(n - |p.free|);
    } else if Difference(p, n) != -TWO_31 {
      CutFreeRightIff(p, n);
    }
  }

  /** Beyond half the width the connections to delete move by a whole turn. */
  lemma CutFreeTurns(p: Pool, n: nat)
    requires InWidth(p) && TWO_31 < n < TWO_32 && FreeLeft(p, n) > 0
    ensures CutFree(p, n) != Resized(p, n)
  {
    InRange(0 - n);
    InRange(p.toDelete + I32(0 - n));
    InRange(p.toDelete + I32(0 - n) - TWO_32);
    Shifts(p.toDelete + I32(0 - n), -1);
    assert CutFree(p, n).toDelete != p.toDelete;
  }

  lemma CutFreeRightIff(p: Pool, n: nat)
    requires InWidth(p) && |p.free| < TWO_64 && n < TWO_32 && FreeLeft(p, n) > 0
    ensures CutFree(p, n) == Resized(p, n)
            <==> n == 0 || (n <= TWO_31 && n <= |p.free| && |p.free| - n < TWO_31)
  {
    if n > TWO_31 {
      CutFreeTurns(p, n);
    } else if n > 0 {
      InRange(0 - n);
      OverIs(p, n);
      SizeFits(|p.free|, FreeLeft(p, n));
      InRange(|p.free| - n);
      var size := U64(|p.free| - FreeLeft(p, n));
      assert CutFree(p, n) == p.(toCreate := 0, free := p.free[..size]);
      if n <= |p.free| {
        SizeIs(|p.free|, FreeLeft(p, n));
        assert |p.free[..size]| == size;
      }
    }
  }

  lemma SizeIs(free: nat, cut: int)
    requires 0 < cut < TWO_31 && I32(U64(cut - free)) < 0 && free < TWO_64
    ensures U64(free - cut) == free - cut
  {
    assert free < cut ==> U64(cut - free) == cut - free;
  }

  /** The same in plain numbers, for lists and totals below 2^31 and 2^32: the pool may not grow by 2^31 or more, and
      when it shrinks it may not be by 2^31 or to more than 2^31 above the free connections, unless it is by more than
      2^31 and no free connection has to go. */
  lemma ResizeRightInNumbers(p: Pool, n: nat)
    requires InWidth(p) && |p.free| < TWO_31 && Total(p) < TWO_32 && n < TWO_32
    ensures ResizedInWords(p, n) == Some(Resized(p, n)) <==>
              && n < Total(p) + TWO_31
              && (n < Total(p) ==>
                    || (Total(p) - n < TWO_31 && n <= |p.free| + TWO_31)
                    || (Total(p) - n > TWO_31 && n >= |p.free|))
  {
    ResizeRightIff(p, n);
    InRange(n - Total(p));
    InRange(|p.free| - n);
  }

  /** Two resizes from the default pool: the first is right, the second, by one less, leaves no connection to create
      and takes 2^31 - 2 connections for superfluous. */
  lemma SecondResizeFails()
    ensures var p := Pool([], DEFAULT_CONNECTIONS_COUNT, 0, {}, 0);
            var one := ResizedInWords(p, TWO_31 + 3);
            && one == Some(Resized(p, TWO_31 + 3))
            && ResizedInWords(one.value, TWO_31 + 2) == Some(Pool([], 0, TWO_31 - 2, {}, 0))
  {
    var p := Pool([], DEFAULT_CONNECTIONS_COUNT, 0, {}, 0);
    ResizeRightInNumbers(p, TWO_31 + 3);
    var one := Resized(p, TWO_31 + 3);
    WordsCompute(one, TWO_31 + 2);
    InRange(-1);
    InRange(0 - (TWO_31 + 2));
    assert CutFree(one, TWO_31 + 2) == Pool([], 0, TWO_31 - 2, {}, 0);
  }

  // ---------- The pool and its owners ----------

  class ConnectionPool {
    var freeConnections: seq<nat>
    var toDelete: nat
    var toCreate: nat
    var busy: nat
    ghost var out: set<nat>
    var born: nat

    /** The connections busy are never counted. */
    ghost predicate Valid()
      reads this
    {
      busy == 0 && InWidth(Value())
    }

    ghost function Value(): Pool
      reads this
    {
      Pool(freeConnections, toCreate, toDelete, out, born)
    }

    constructor ()
      ensures Valid() && Value() == Pool([], DEFAULT_CONNECTIONS_COUNT, 0, {}, 0)
    {
      freeConnections, toDelete, toCreate, busy, born := [], 0, 0, 0, 0;
      out := {};
      new;
      ResizeRightIff(Value(), DEFAULT_CONNECTIONS_COUNT);
      var defined := SetConnectionsCount(DEFAULT_CONNECTIONS_COUNT);
    }

    /** Fails, and changes nothing, when a new connection is needed and cannot be created. */
    method GetConnection(creates: bool) returns (connection: Option<nat>)
      requires Valid()
      modifies this
      ensures Valid() && (Value(), connection) == Get(old(Value()), creates)
    {
      if freeConnections != [] {
        connection := Some(freeConnections[|freeConnections| - 1]);
        freeConnections := freeConnections[..|freeConnections| - 1];
      } else if toCreate > 0 {
        connection := CreateConnection(creates);
        if connection.None? {
          return;
        }
        toCreate := toCreate - 1;
      } else {
        connection := CreateConnection(creates);
        if connection.None? {
          return;
        }
        toDelete := U32(toDelete + 1);
      }
      out := out + {connection.value};
    }

    method CreateConnection(creates: bool) returns (connection: Option<nat>)
      modifies this`born
      ensures connection == if creates then Some(old(born)) else None
      ensures born == old(born) + if creates then 1 else 0
    {
      if creates {
        connection := Some(born);
        born := born + 1;
      } else {
        connection := None;
      }
    }

    method ReturnConnection(connection: nat)
      requires Valid()
      modifies this
      ensures Valid() && Value() == Return(old(Value()), connection)
    {
      if toDelete > 0 {
        toDelete := toDelete - 1;
      } else {
        freeConnections := freeConnections + [connection];
      }
      out := out - {connection};
    }

    method SetSettings(changed: bool, connectionCount: Option<nat>) returns (defined: bool)
      requires Valid() && (connectionCount.Some? ==> connectionCount.value < TWO_32)
      modifies this
      ensures var before := if changed then Reset(old(Value())) else old(Value());
              var after := if connectionCount.Some? then ResizedInWords(before, connectionCount.value) else Some(before);
              defined == after.Some? && (defined ==> Valid() && Value() == after.value)
    {
      if changed {
        var alreadyCreated := |freeConnections|;
        freeConnections := [];
        toCreate := U32(toCreate + alreadyCreated);
      }
      defined := true;
      if connectionCount.Some? {
        defined := SetConnectionsCount(connectionCount.value);
      }
    }

    method SetConnectionsCount(n: nat) returns (defined: bool)
      requires Valid() && n < TWO_32
      modifies this
      ensures defined == ResizedInWords(old(Value()), n).Some?
      ensures defined ==> Valid() && Value() == ResizedInWords(old(Value()), n).value
    {
      defined := true;
      var diff := I32(U64(n - U64(|freeConnections| + busy + toCreate)));
      if diff > 0 {
        toCreate := U32(toCreate + diff);
      } else if diff < 0 {
        if diff == -TWO_31 {
          return false;
        }
        CutConnections(-diff);
      }
    }

    method CutConnections(cut: int)
      requires Valid() && 0 < cut < TWO_31
      modifies this
      ensures Valid() && Value() == CutInWords(old(Value()), cut)
    {
      var diff := I32(U32(cut) - toCreate);
      toCreate := if diff >= 0 then 0 else U32(toCreate - cut);
      if diff > 0 {
        var savedDiff := diff;
        diff := I32(U64(diff - |freeConnections|));
        var size := if diff >= 0 then 0 else U64(|freeConnections| - savedDiff);
        SizeFits(|freeConnections|, savedDiff);
        freeConnections := freeConnections[..size];
        if diff > 0 {
          toDelete := U32(toDelete + diff);
        }
      }
    }
  }

  /** Owns a connection until it is moved from; the owner gives it back when it ends. */
  class ConnectionProxy {
    var pool: ConnectionPool?
    const connection: nat

    constructor (pool: ConnectionPool?, connection: nat)
      ensures this.pool == pool && this.connection == connection
    {
      this.pool := pool;
      this.connection := connection;
    }

    method Move() returns (moved: ConnectionProxy)
      modifies this`pool
      ensures fresh(moved) && moved.pool == old(pool) && moved.connection == connection && pool == null
    {
      moved := new ConnectionProxy(pool, connection);
      pool := null;
    }

    method Destroy()
      requires pool != null ==> pool.Valid()
      modifies pool
      ensures pool == old(pool)
      ensures pool != null ==> pool.Valid() && pool.Value() == Return(old(pool.Value()), connection)
    {
      if pool != null {
        pool.ReturnConnection(connection);
      }
    }
  }

  // ---------- The quota ----------

  /** What the counters add up to. */
  function Quota(p: Pool): int {
    Total(p) + |p.out| - p.toDelete
  }

  function Most(a: int, b: int): int {
    if a < b then b else a
  }

  /** Free and to-create make up what is left of the quota, to-delete what exceeds it. */
  ghost predicate Implements(p: Pool, quota: int) {
    Total(p) == Most(0, quota - |p.out|) && p.toDelete == Most(0, |p.out| - quota)
  }

  /** Every connection has one owner: the free list or one holder. */
  ghost predicate Owned(p: Pool) {
    && (forall i, j | 0 <= i < j < |p.free| :: p.free[i] != p.free[j])
    && (forall i | 0 <= i < |p.free| :: p.free[i] !in p.out && p.free[i] < p.born)
    && (forall id | id in p.out :: id < p.born)
  }

  datatype Event = Take(creates: bool) | Give(id: nat) | Renew

  /** Only connections that are out are given back. */
  predicate Enabled(p: Pool, e: Event) {
    e.Give? ==> e.id in p.out
  }

  function Step(p: Pool, e: Event): Pool {
    match e
    case Take(creates) => Get(p, creates).0
    case Give(id) => Return(p, id)
    case Renew => Reset(p)
  }

  /** Fewer than 2^32 connections are out at any time. */
  ghost predicate Runs(p: Pool, events: seq<Event>)
    decreases |events|
  {
    |p.out| + 1 < TWO_32 && (events == [] || (Enabled(p, events[0]) && Runs(Step(p, events[0]), events[1..])))
  }

  function After(p: Pool, events: seq<Event>): Pool
    decreases |events|
  {
    if events == [] then p else After(Step(p, events[0]), events[1..])
  }

  lemma TakeFreeKeeps(p: Pool, quota: int)
    requires Implements(p, quota) && Owned(p) && p.free != []
    ensures Implements(Get(p, true).0, quota) && Owned(Get(p, true).0) && Get(p, false) == Get(p, true)
  {
    var last := p.free[|p.free| - 1];
    assert last !in p.out;
    assert |p.out + {last}| == |p.out| + 1;
  }

  lemma CreateKeeps(p: Pool, quota: int)
    requires 0 <= quota < TWO_32 && |p.out| + 1 < TWO_32 && Implements(p, quota) && Owned(p) && p.free == []
    ensures Implements(Get(p, true).0, quota) && Owned(Get(p, true).0)
  {
    InRange(p.toDelete + 1);
    assert p.born !in p.out;
    assert |p.out + {p.born}| == |p.out| + 1;
  }

  lemma GetKeeps(p: Pool, creates: bool, quota: int)
    requires 0 <= quota < TWO_32 && |p.out| + 1 < TWO_32 && Implements(p, quota) && Owned(p)
    ensures Implements(Get(p, creates).0, quota) && Owned(Get(p, creates).0)
  {
    if p.free != [] {
      TakeFreeKeeps(p, quota);
    } else if creates {
      CreateKeeps(p, quota);
    }
  }

  lemma StepKeeps(p: Pool, e: Event, quota: int)
    requires 0 <= quota < TWO_32 && |p.out| + 1 < TWO_32 && Enabled(p, e)
    requires Implements(p, quota) && Owned(p)
    ensures Implements(Step(p, e), quota) && Owned(Step(p, e))
  {
    match e
    case Take(creates) => GetKeeps(p, creates, quota);
    case Give(id) => assert |p.out - {id}| == |p.out| - 1;
    case Renew => InRange(Total(p));
  }

  /** In every run with O connections out: free + to-create = max(0, Q - O), to-delete = max(0, O - Q), at most
      max(Q, O) connections are open, and none has two owners. */
  lemma {:induction false} EveryRunImplementsTheQuota(p: Pool, events: seq<Event>, quota: int)
    requires 0 <= quota < TWO_32 && Implements(p, quota) && Owned(p) && Runs(p, events)
    ensures var after := After(p, events);
            Implements(after, quota) && Owned(after) && |after.free| + |after.out| <= Most(quota, |after.out|)
    decreases |events|
  {
    if events != [] {
      StepKeeps(p, events[0], quota);
      EveryRunImplementsTheQuota(Step(p, events[0]), events[1..], quota);
    }
  }

  lemma SmallResize(p: Pool, n: nat)
    requires InWidth(p) && Total(p) < TWO_31 && n < TWO_31
    ensures ResizedInWords(p, n) == Some(Resized(p, n))
  {
    ResizeRightInNumbers(p, n);
  }

  /** A resize with nothing outstanding starts such a run. */
  lemma ResizeStarts(p: Pool, quota: nat, n: nat)
    requires quota < TWO_31 && n < TWO_31 && Implements(p, quota) && Owned(p) && p.out == {}
    ensures var after := ResizedInWords(p, n);
            after.Some? && Implements(after.value, n) && Owned(after.value)
  {
    SmallResize(p, n);
  }

  /** With connections outstanding the new quota is right exactly when the old quota was zero: the connections
      that are busy are not counted. */
  lemma ResizeForgetsTheBusy(p: Pool, quota: nat, n: nat)
    requires quota < TWO_31 && n < TWO_31 && Implements(p, quota) && |p.out| < TWO_31
    ensures var after := ResizedInWords(p, n);
            && after.Some?
            && Quota(after.value) == n + |p.out| - p.toDelete
            && (Quota(after.value) == n <==> p.out == {} || quota == 0)
  {
    SmallResize(p, n);
    assert Total(Resized(p, n)) == n;
    assert |p.out| == 0 <==> p.out == {};
  }

  lemma GetKeepsItsQuota(p: Pool, creates: bool)
    requires Owned(p) && p.toDelete + 1 < TWO_32
    ensures Owned(Get(p, creates).0) && Quota(Get(p, creates).0) == Quota(p)
    ensures Get(p, creates).0.toDelete <= p.toDelete + 1 && Total(Get(p, creates).0) <= Total(p)
  {
    if p.free != [] {
      var last := p.free[|p.free| - 1];
      assert last !in p.out && |p.out + {last}| == |p.out| + 1;
    } else {
      InRange(p.toDelete + 1);
      assert p.born !in p.out && |p.out + {p.born}| == |p.out| + 1;
    }
  }

  lemma StepKeepsItsQuota(p: Pool, e: Event)
    requires Owned(p) && Enabled(p, e) && p.toDelete + 1 < TWO_32 && Total(p) < TWO_32
    ensures Owned(Step(p, e)) && Quota(Step(p, e)) == Quota(p)
    ensures Step(p, e).toDelete <= p.toDelete + 1 && Total(Step(p, e)) <= Total(p) + 1
  {
    match e
    case Take(creates) => GetKeepsItsQuota(p, creates);
    case Give(id) => assert |p.out - {id}| == |p.out| - 1;
    case Renew => InRange(Total(p));
  }

  /** Without a resize nothing changes what the counters add up to, whether or not they implement it. */
  lemma {:induction false} EveryRunKeepsItsQuota(p: Pool, events: seq<Event>)
    requires Owned(p) && Runs(p, events) && p.toDelete + |events| < TWO_32 && Total(p) + |events| < TWO_32
    ensures Quota(After(p, events)) == Quota(p)
    decreases |events|
  {
    if events != [] {
      StepKeepsItsQuota(p, events[0]);
      EveryRunKeepsItsQuota(Step(p, events[0]), events[1..]);
    }
  }

  // ---------- Who gets which connection ----------

  /** A connection given back to the free ones is the next to be handed out, and the pool is as before. */
  lemma GiveThenTake(p: Pool, id: nat, creates: bool)
    requires id in p.out && p.toDelete == 0
    ensures Get(Return(p, id), creates) == (p, Some(id))
  {
    assert (p.free + [id])[..|p.free|] == p.free;
    assert p.out - {id} + {id} == p.out;
  }

  /** A resize keeps the connections that were freed first, and touches none that is out. */
  lemma ResizeKeepsTheFirst(p: Pool, n: nat)
    ensures var after := ResizedInWords(p, n);
            after.Some? ==> after.value.free <= p.free && after.value.out == p.out && after.value.born == p.born
  {}

  /** What was free when the settings changed is never handed out again. */
  lemma {:induction false} OldFreeStayAway(p: Pool, events: seq<Event>, former: Pool)
    requires Owned(p) && Runs(p, events) && former.born <= p.born
    requires forall id | id in p.free || id in p.out :: id >= former.born || id in former.out
    ensures var after := After(p, events);
            forall id | id in after.free || id in after.out :: id >= former.born || id in former.out
    decreases |events|
  {
    if events != [] {
      var next := Step(p, events[0]);
      StepOwns(p, events[0]);
      OldFreeStayAway(next, events[1..], former);
    }
  }

  lemma StepOwns(p: Pool, e: Event)
    requires Owned(p) && Enabled(p, e)
    ensures Owned(Step(p, e)) && p.born <= Step(p, e).born
    ensures var next := Step(p, e); forall id | id in next.free || id in next.out :: id in p.free || id in p.out || id == p.born
  {
    if e.Take? && p.free != [] {
      assert p.free[|p.free| - 1] in p.free;
    }
  }

  /** After a change of settings only connections made since and those that were out when it happened are in use. */
  lemma ResetForgetsTheFree(p: Pool, events: seq<Event>)
    requires Owned(p) && Runs(Reset(p), events)
    ensures var after := After(Reset(p), events);
            forall id | id in after.free || id in after.out :: id >= p.born || id in p.out
  {
    OldFreeStayAway(Reset(p), events, p);
  }

  /** One that was out then, with the settings of old, may be handed out again once it is given back. */
  lemma ResetForgetsNotTheBusy()
    ensures var p := Pool([], 3, 0, {0}, 1);
            && Implements(p, 4) && Owned(p) && Runs(Reset(p), [Give(0), Take(true)])
            && Get(After(Reset(p), [Give(0)]), true).1 == Some(0)
  {
    var p := Pool([], 3, 0, {0}, 1);
    InRange(3);
    assert Reset(p) == p && |p.out| == 1;
    var given := Step(p, Give(0));
    assert given == Pool([0], 3, 0, {}, 1);
    assert [Give(0), Take(true)][1..] == [Take(true)] && [Take(true)][1..] == [] && [Give(0)][1..] == [];
    assert Step(given, Take(true)) == Pool([], 3, 0, {0}, 1);
    assert Runs(Step(given, Take(true)), []) && Runs(given, [Take(true)]);
    assert After(p, [Give(0)]) == given;
  }
}
