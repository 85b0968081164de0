/**
 The CID table: creation, lookup, expansion, enumeration, rundown and deletion.

 `Table` holds the root pointer and the blocks it allocated.  The allocator may
 fail at every request.  The ghost field `history` records the memory after every
 single store, which is what a concurrent lookup can see.
 */
module CidTable {
  import opened CidContents
  import opened CidDelete
  import opened CidGrowth
  import opened CidMemory
  import opened Division
  import opened Wrappers

  /** Nothing that was stored or served before is lost; what is new belongs to
      the block of the requested id and is empty. */
  ghost predicate Serves(sh: Shape, m: Memory, m': Memory, id: nat, entry: Option<Cell>)
    requires ValidShape(sh)
  {
    && (entry.Some? ==> Lookup(sh, m', id) == entry)
    && (forall j: nat :: Lookup(sh, m, j).Some? ==> Lookup(sh, m', j) == Lookup(sh, m, j))
    && (forall j: nat :: Lookup(sh, m, j).None? && Lookup(sh, m', j).Some? ==>
          entry.Some? && SameBlock(sh, j, id) && j < Max2(sh))
    && (forall j: nat :: Object(sh, m', j) == Object(sh, m, j))
  }

  /** Every allocated block. */
  function Addresses(m: Memory): set<nat> {
    m.t0.Keys + m.t1.Keys + m.t2.Keys
  }

  lemma AddBlockAddresses(sh: Shape, m: Memory, level: nat, a: nat)
    ensures Addresses(AddBlock(sh, m, level, a)) == Addresses(m) + {a}
  {
  }

  /** The tree may have grown at the root, but it serves and stores the same. */
  ghost predicate Unmoved(sh: Shape, m: Memory, m': Memory)
    requires ValidShape(sh)
  {
    && (forall j: nat :: Lookup(sh, m', j) == Lookup(sh, m, j))
    && (forall j: nat :: Object(sh, m', j) == Object(sh, m, j))
  }

  lemma UnmovedServes(sh: Shape, m: Memory, m': Memory, m'': Memory, id: nat, entry: Option<Cell>)
    requires ValidShape(sh) && Unmoved(sh, m, m') && Serves(sh, m', m'', id, entry)
    ensures Serves(sh, m, m'', id, entry)
  {
  }

  lemma RootMigrated(sh: Shape, m: Memory, m': Memory, a: nat)
    requires WellFormed(sh, m) && Free(m, a) && m.root.level <= 1 && m' == Migrated(sh, m, a)
    ensures WellFormed(sh, m') && Unmoved(sh, m, m')
  {
    forall j: nat
      ensures Lookup(sh, m', j) == Lookup(sh, m, j)
      ensures Object(sh, m', j) == Object(sh, m, j)
    {
      MigrateLookup(sh, m, a, j);
    }
    if m.root.level == 0 {
      MigrateFrom0(sh, m, a);
    } else {
      MigrateFrom1(sh, m, a);
    }
  }

  lemma TableUnmoved(sh: Shape, m: Memory, i: nat, a: nat)
    requires WellFormed(sh, m) && Free(m, a)
    requires m.root.level == 2 && i < sh.l2 && At(m.t2, m.root.table, i) == 0
    ensures Unmoved(sh, m, WithTable(sh, m, i, a))
  {
    forall j: nat
      ensures Lookup(sh, WithTable(sh, m, i, a), j) == Lookup(sh, m, j)
      ensures Object(sh, WithTable(sh, m, i, a), j) == Object(sh, m, j)
    {
      TableLookup(sh, m, i, a, j);
    }
  }

  lemma LeafServes(sh: Shape, m: Memory, table: nat, i: nat, a: nat, id: nat)
    requires WellFormed(sh, m) && Free(m, a)
    requires table in m.t1 && i < sh.l1 && At(m.t1, table, i) == 0 && OnPath(sh, m, table, i, id)
    ensures var m' := WithLeaf(sh, m, table, i, a);
      Lookup(sh, m', id).Some? && Serves(sh, m, m', id, Lookup(sh, m', id))
  {
    LeafLookup(sh, m, table, i, a, id, id);
    var m' := WithLeaf(sh, m, table, i, a);
    forall j: nat
      ensures Lookup(sh, m, j).Some? ==> Lookup(sh, m', j) == Lookup(sh, m, j)
      ensures Lookup(sh, m, j).None? && Lookup(sh, m', j).Some? ==> SameBlock(sh, j, id) && j < Max2(sh)
      ensures Object(sh, m', j) == Object(sh, m, j)
    {
      LeafLookup(sh, m, table, i, a, id, j);
    }
  }

  lemma LeafAdded(sh: Shape, m: Memory, m': Memory, table: nat, i: nat, a: nat, id: nat)
    requires WellFormed(sh, m) && Free(m, a)
    requires table in m.t1 && i < sh.l1 && At(m.t1, table, i) == 0 && OnPath(sh, m, table, i, id)
    requires m' == WithLeaf(sh, m, table, i, a)
    ensures WellFormed(sh, m') && m'.root == m.root && m'.t2 == m.t2 && At(m'.t1, table, i) == a
    ensures Lookup(sh, m', id).Some? && Serves(sh, m, m', id, Lookup(sh, m', id))
  {
    LeafWellFormed(sh, m, table, i, a);
    LeafServes(sh, m, table, i, a, id);
  }

  /** The part of an id that selects within its level 1 table. */
  function Rest(sh: Shape, m: Memory, id: nat): nat
    requires ValidShape(sh)
  {
    if m.root.level == 1 then id else Rem(id, Max1(sh))
  }

  lemma PathLookup(sh: Shape, m: Memory, table: nat, id: nat)
    requires ValidShape(sh)
    requires OnPath(sh, m, table, Quot(Rest(sh, m, id), sh.l0), id)
    requires At(m.t1, table, Quot(Rest(sh, m, id), sh.l0)) != 0
    ensures Lookup(sh, m, id)
         == Some(Cell(At(m.t1, table, Quot(Rest(sh, m, id), sh.l0)), Rem(Rest(sh, m, id), sh.l0)))
  {
  }

  /** Rundown has emptied the cells of the ids below n; enumeration empties none. */
  ghost predicate Visited(sh: Shape, m: Memory, m': Memory, rundown: bool, n: nat)
    requires ValidShape(sh)
  {
    && SameTables(m, m') && (!rundown ==> m' == m)
    && forall j: nat :: Object(sh, m', j) == if rundown && j < n then 0 else Object(sh, m, j)
  }

  lemma VisitOne(sh: Shape, m: Memory, m': Memory, n: nat, cell: Cell)
    requires WellFormed(sh, m) && Visited(sh, m, m', true, n) && Lookup(sh, m, n) == Some(cell)
    ensures Visited(sh, m, SetCell(m', cell, 0), true, n + 1)
  {
    SameWellFormed(sh, m, m');
    SameLookup(sh, m, m', n);
    forall j: nat ensures Object(sh, SetCell(m', cell, 0), j) == if j < n + 1 then 0 else Object(sh, m, j) {
      SetOne(sh, m', n, 0, j);
    }
    SetOne(sh, m', n, 0, n);
  }

  /** Walking the table changes no pointer. */
  lemma VisitedTables(sh: Shape, m: Memory, m': Memory, rundown: bool, n: nat)
    requires ValidShape(sh) && Visited(sh, m, m', rundown, n)
    ensures m'.root == m.root && m'.t1 == m.t1 && m'.t2 == m.t2
  {
  }

  lemma VisitNoTable(sh: Shape, m: Memory, m': Memory, rundown: bool, base: nat, end: nat)
    requires ValidShape(sh) && Visited(sh, m, m', rundown, base) && TableRange(sh, m, 0, base)
    requires end == base + Max1(sh)
    ensures Visited(sh, m, m', rundown, end) && Contents(sh, m, end) == Contents(sh, m, base)
  {
    VisitNone(sh, m, m', rundown, base, end);
  }

  lemma VisitNoBlock(sh: Shape, m: Memory, m': Memory, rundown: bool, base: nat, end: nat)
    requires ValidShape(sh) && Visited(sh, m, m', rundown, base) && BlockRange(sh, m, 0, base)
    requires end == base + sh.l0
    ensures Visited(sh, m, m', rundown, end) && Contents(sh, m, end) == Contents(sh, m, base)
  {
    VisitNone(sh, m, m', rundown, base, end);
  }

  lemma VisitNone(sh: Shape, m: Memory, m': Memory, rundown: bool, a: nat, b: nat)
    requires ValidShape(sh) && Visited(sh, m, m', rundown, a) && a <= b
    requires forall j: nat :: a <= j < b ==> Lookup(sh, m, j).None?
    ensures Visited(sh, m, m', rundown, b)
    ensures Contents(sh, m, b) == Contents(sh, m, a)
  {
  }

  lemma LoggedSame(sh: Shape, m: Memory, m': Memory, history: seq<Memory>, unused: nat)
    requires Logged(sh, m, history, unused) && SameTables(m, m')
    ensures Logged(sh, m', history, unused)
  {
    assert Addresses(m') == Addresses(m);
    assert SameTables(history[|history| - 1], m');
  }

  /** Only the object of one id has changed. */
  ghost predicate Assigned(sh: Shape, m: Memory, m': Memory, id: nat, obj: nat)
    requires ValidShape(sh)
  {
    SameTables(m, m') && forall j: nat :: Object(sh, m', j) == if j == id then obj else Object(sh, m, j)
  }

  lemma SetAll(sh: Shape, m: Memory, m': Memory, id: nat, entry: Cell, obj: nat)
    requires WellFormed(sh, m) && Lookup(sh, m, id) == Some(entry) && m' == SetCell(m, entry, obj)
    ensures WellFormed(sh, m') && Assigned(sh, m, m', id, obj)
  {
    forall j: nat ensures Object(sh, m', j) == if j == id then obj else Object(sh, m, j) {
      SetOne(sh, m, id, obj, j);
    }
    SetOne(sh, m, id, obj, id);
    SameWellFormed(sh, m, m');
  }

  /** An enumeration that went through has shown everything. */
  lemma EnumerationDone(sh: Shape, m: Memory, m': Memory, callback: Option<nat -> bool>, shown: seq<nat>, n: nat)
    requires WellFormed(sh, m) && Visited(sh, m, m', callback.None?, n) && n <= Max2(sh)
    requires shown == Contents(sh, m, n) && GoesOn(callback, shown)
    requires forall j: nat :: n <= j ==> Lookup(sh, m, j).None?
    ensures WellFormed(sh, m') && SameTables(m, m') && shown == Expected(sh, m, callback)
    ensures callback.None? ==> forall j: nat :: Object(sh, m', j) == 0
  {
    EmptyRange(sh, m, n, Max2(sh));
    WentThrough(sh, m, callback);
    SameWellFormed(sh, m, m');
  }

  lemma BlockCell(sh: Shape, m: Memory, block: nat, base: nat, n: nat)
    requires ValidShape(sh) && BlockRange(sh, m, block, base) && block != 0 && base <= n < base + sh.l0
    ensures Lookup(sh, m, n) == Some(Cell(block, n - base)) && n < Max2(sh)
  {
  }

  /** No callback is given for a rundown; otherwise nobody asked to stop yet. */
  ghost predicate GoesOn(callback: Option<nat -> bool>, objects: seq<nat>) {
    callback.Some? ==> forall x :: x in objects ==> !callback.value(x)
  }

  /** The objects of the ids below n were shown, and nobody asked to stop. */
  ghost predicate ShownUpTo(sh: Shape, m: Memory, m': Memory, callback: Option<nat -> bool>, n: nat, shown: seq<nat>)
    requires ValidShape(sh)
  {
    Visited(sh, m, m', callback.None?, n) && shown == Contents(sh, m, n) && GoesOn(callback, shown)
  }

  /** What an enumeration of a table shows to its callback. */
  function Expected(sh: Shape, m: Memory, callback: Option<nat -> bool>): seq<nat>
    requires ValidShape(sh)
  {
    match callback
    case None => All(sh, m)
    case Some(stop) => UpToFirst(stop, All(sh, m))
  }

  lemma WentThrough(sh: Shape, m: Memory, callback: Option<nat -> bool>)
    requires ValidShape(sh) && GoesOn(callback, All(sh, m))
    ensures Expected(sh, m, callback) == All(sh, m)
  {
    if callback.Some? {
      NoStop(callback.value, All(sh, m));
    }
  }

  lemma LookupBelow(sh: Shape, m: Memory, id: nat)
    requires ValidShape(sh) && Lookup(sh, m, id).Some?
    ensures id < Max2(sh)
  {
  }

  /** The history is a growth that ends in the current tables, and the allocator
      hands out addresses from `unused` on. */
  ghost predicate Logged(sh: Shape, m: Memory, history: seq<Memory>, unused: nat) {
    && Growth(sh, history) && |history| > 0 && SameTables(history[|history| - 1], m)
    && unused > 0 && forall a :: a in Addresses(m) ==> a < unused
  }

  lemma LoggedFree(sh: Shape, m: Memory, history: seq<Memory>, unused: nat)
    requires Logged(sh, m, history, unused)
    ensures Free(m, unused)
  {
    assert unused !in Addresses(m);
  }

  /** One more store. */
  lemma LogStore(sh: Shape, m: Memory, m': Memory, history: seq<Memory>, unused: nat)
    requires Logged(sh, m, history, unused) && Readable(sh, m') && Grows(m, m')
    requires Addresses(m') == Addresses(m)
    ensures Logged(sh, m', history + [m'], unused)
  {
    assert Grows(history[|history| - 1], m');
  }

  lemma LogAllocation(sh: Shape, m: Memory, level: nat, history: seq<Memory>, unused: nat)
    requires Logged(sh, m, history, unused) && Readable(sh, m) && level <= 2
    ensures var m' := AddBlock(sh, m, level, unused);
      Readable(sh, m') && Logged(sh, m', history + [m'], unused + 1)
  {
    LoggedFree(sh, m, history, unused);
    AddBlockGrows(sh, m, level, unused);
    AddBlockAddresses(sh, m, level, unused);
    assert Grows(history[|history| - 1], AddBlock(sh, m, level, unused));
  }

  /** What a concurrent reader knows is still right in the end. */
  lemma ReaderCatchesUp(sh: Shape, m: Memory, history: seq<Memory>, unused: nat, id: nat, moments: seq<nat>)
    requires Readable(sh, m) && Logged(sh, m, history, unused)
    requires Ascending(moments) && forall k :: 0 <= k < |moments| ==> moments[k] < |history|
    ensures var reader := Reads(sh, history, id, moments);
      reader.Done? && reader.result.Some? ==> Lookup(sh, m, id) == reader.result
  {
    var now := |history| - 1;
    LockFreeLookup(sh, history, id, moments, now);
    SameLookup(sh, history[now], m, id);
  }

  /** A lookup without the lock, at any moments of the life of a table: the cell that
      it returns is the one that the id has in the end, and no other id has it. */
  lemma ConcurrentLookup(sh: Shape, m: Memory, history: seq<Memory>, unused: nat, id: nat, moments: seq<nat>,
                         cell: Cell, other: nat)
    requires WellFormed(sh, m) && Logged(sh, m, history, unused)
    requires Ascending(moments) && forall k :: 0 <= k < |moments| ==> moments[k] < |history|
    requires Reads(sh, history, id, moments) == Done(Some(cell))
    ensures Lookup(sh, m, id) == Some(cell) && (Lookup(sh, m, other) == Some(cell) <==> other == id)
  {
    ReaderCatchesUp(sh, m, history, unused, id, moments);
    if Lookup(sh, m, other) == Some(cell) {
      LookupInjective(sh, m, id, other);
    }
  }

  /** Three reads complete a lookup, in whatever memories they happen. */
  lemma ThreeReads(sh: Shape, history: seq<Memory>, id: nat, moments: seq<nat>)
    requires ValidShape(sh) && |moments| == 3 && forall k :: 0 <= k < |moments| ==> moments[k] < |history|
    ensures Reads(sh, history, id, moments).Done?
    ensures Reads(sh, history, id, moments)
         == Read(sh, history[moments[2]], id,
                 Read(sh, history[moments[1]], id, Read(sh, history[moments[0]], id, Start)))
  {
    var first := Read(sh, history[moments[0]], id, Start);
    var second := Read(sh, history[moments[1]], id, first);
    assert moments[..2][..1] == moments[..1] && moments[..1][..0] == [] && moments[..2][1] == moments[1];
    assert Reads(sh, history, id, moments[..0]) == Start;
    assert Reads(sh, history, id, moments[..1]) == first;
    assert Reads(sh, history, id, moments[..2]) == second;
    assert Reads(sh, history, id, moments) == Read(sh, history[moments[2]], id, second);
  }

  /** What an enumeration meets while the table grows: it captures the root, reads the
      pointers to the block of an id later, and then visits the cell.  It visits the one
      cell of the id, unless the id had none when the root was captured. */
  lemma ConcurrentVisit(sh: Shape, history: seq<Memory>, id: nat, moments: seq<nat>, now: nat)
    requires Growth(sh, history) && now < |history| && |moments| == 3
    requires Ascending(moments) && forall k :: 0 <= k < |moments| ==> moments[k] <= now
    ensures var reader := Reads(sh, history, id, moments);
      && reader.Done?
      && (reader.result.Some? ==> Lookup(sh, history[now], id) == reader.result)
      && (reader.result.None? ==> Lookup(sh, history[moments[0]], id) == None)
  {
    ThreeReads(sh, history, id, moments);
    LockFreeLookup(sh, history, id, moments, now);
    GrowthIsGrows(sh, history, moments[0], moments[1]);
    GrowthIsGrows(sh, history, moments[1], moments[2]);
    if Reads(sh, history, id, moments).result.None? {
      MissedNothing(sh, history[moments[0]], history[moments[1]], history[moments[2]], id);
    }
  }

  /** A pointer that is there at first is still there later. */
  lemma MissedNothing(sh: Shape, m: Memory, m': Memory, m'': Memory, id: nat)
    requires ValidShape(sh) && Readable(sh, m) && Grows(m, m') && Grows(m', m'')
    requires Read(sh, m'', id, Read(sh, m', id, Read(sh, m, id, Start))) == Done(None)
    ensures Lookup(sh, m, id) == None
  {
  }

  /** The cell of an id exists, and belongs to no other id. */
  lemma OwnCell(sh: Shape, m: Memory, id: nat)
    requires WellFormed(sh, m)
    ensures var entry := Lookup(sh, m, id);
      entry.Some? ==>
        && entry.value.block in m.t0 && entry.value.index < |m.t0[entry.value.block]|
        && forall j: nat :: Lookup(sh, m, j) == entry <==> j == id
  {
    var entry := Lookup(sh, m, id);
    if entry.Some? {
      CellExists(sh, m, id);
      forall j: nat | Lookup(sh, m, j) == entry ensures j == id {
        LookupInjective(sh, m, id, j);
      }
    }
  }

  /** The ids below it are those that tables of the present level can have. */
  function Capacity(sh: Shape, m: Memory): nat
    requires ValidShape(sh)
  {
    if m.root.level == 0 then sh.l0 else if m.root.level == 1 then Max1(sh) else Max2(sh)
  }

  /** How many blocks have to be allocated before an id has a cell. */
  function Missing(sh: Shape, m: Memory, id: nat): nat
    requires ValidShape(sh)
  {
    if Lookup(sh, m, id).Some? then 0
    else if m.root.level == 0 then (if id < Max1(sh) then 2 else 4)
    else if m.root.level == 1 then (if id < Max1(sh) then 1 else 3)
    else if At(m.t2, m.root.table, Quot(id, Max1(sh))) == 0 then 2
    else 1
  }

  /** The allocator grants n requests, the first of them with number `from`. */
  predicate Granted(grants: nat -> bool, from: nat, n: nat) {
    forall k: nat :: from <= k < from + n ==> grants(k)
  }

  /** With n blocks more, fewer are missing. */
  ghost predicate Closer(sh: Shape, m: Memory, m': Memory, id: nat, n: int)
    requires ValidShape(sh)
  {
    Missing(sh, m', id) + n == Missing(sh, m, id)
  }

  lemma GrantedTwice(grants: nat -> bool, from: nat, n: nat, more: nat)
    ensures Granted(grants, from, n + more) <==> Granted(grants, from, n) && Granted(grants, from + n, more)
  {
    if Granted(grants, from, n + more) {
      forall k: nat | from + n <= k < from + n + more ensures grants(k) {
      }
    }
  }

  lemma MigratedMissing(sh: Shape, m: Memory, a: nat, id: nat)
    requires WellFormed(sh, m) && Free(m, a) && m.root.level <= 1 && id >= Capacity(sh, m)
    ensures Missing(sh, Migrated(sh, m, a), id) + 1 == Missing(sh, m, id)
  {
    var divisor := if m.root.level == 0 then sh.l0 else Max1(sh);
    assert Quot(id, divisor) > 0;
  }

  class Table {
    const sh: Shape
    var mem: Memory
    const grants: nat -> bool
    var unused: nat
    var requests: nat
    ghost var history: seq<Memory>

    ghost predicate Tracked()
      reads this
    {
      Readable(sh, mem) && Logged(sh, mem, history, unused)
    }

    ghost predicate Valid()
      reads this
    {
      WellFormed(sh, mem) && Logged(sh, mem, history, unused)
    }

    /** KphCidTableCreate; `a` is the block the allocator returned.  The allocator
        `grants` later requests, or fails. */
    constructor (sh: Shape, a: nat, grants: nat -> bool)
      requires ValidShape(sh) && a > 0
      ensures Valid() && this.sh == sh && this.grants == grants && requests == 0
      ensures forall j: nat :: Lookup(sh, mem, j) == if j < sh.l0 then Some(Cell(a, j)) else None
      ensures forall j: nat :: Object(sh, mem, j) == 0
    {
      this.sh, this.grants := sh, grants;
      mem := Memory(Root(0, a), map[a := Zeros(sh.l0)], map[], map[]);
      unused, requests := a + 1, 0;
      history := [Memory(Root(0, a), map[a := Zeros(sh.l0)], map[], map[])];
    }

    /** KphpCidAllocateTable: a zeroed block of the level, or NULL. */
    method AllocateTable(level: nat) returns (a: nat)
      requires Tracked() && level <= 2
      modifies this
      ensures Tracked() && old(history) <= history
      ensures requests == old(requests) + 1 && (a != 0 <==> grants(old(requests)))
      ensures a == 0 ==> mem == old(mem)
      ensures a != 0 ==> Free(old(mem), a) && mem == AddBlock(sh, old(mem), level, a)
    {
      requests := requests + 1;
      if !grants(requests - 1) {
        return 0;
      }
      a := unused;
      LoggedFree(sh, mem, history, unused);
      LogAllocation(sh, mem, level, history, unused);
      mem := AddBlock(sh, mem, level, a);
      unused := unused + 1;
      history := history + [mem];
    }

    /** tableL1[i] = p, one store. */
    method Store1(table: nat, i: nat, p: nat)
      requires Tracked() && table in mem.t1 && i < sh.l1 && At(mem.t1, table, i) == 0 && p in mem.t0
      modifies this`mem, this`history
      ensures Tracked() && old(history) <= history
      ensures old(table in mem.t1 && i < |mem.t1[table]|) && mem == SetPointer1(old(mem), table, i, p)
    {
      SetPointer1Grows(sh, mem, table, i, p);
      assert Addresses(SetPointer1(mem, table, i, p)) == Addresses(mem);
      LogStore(sh, mem, SetPointer1(mem, table, i, p), history, unused);
      mem := mem.(t1 := mem.t1[table := Put(mem.t1[table], i, p)]);
      history := history + [mem];
    }

    /** tableL2[i] = p, one store. */
    method Store2(table: nat, i: nat, p: nat)
      requires Tracked() && table in mem.t2 && i < sh.l2 && At(mem.t2, table, i) == 0 && p in mem.t1
      modifies this`mem, this`history
      ensures Tracked() && old(history) <= history
      ensures old(table in mem.t2 && i < |mem.t2[table]|) && mem == SetPointer2(old(mem), table, i, p)
    {
      SetPointer2Grows(sh, mem, table, i, p);
      assert Addresses(SetPointer2(mem, table, i, p)) == Addresses(mem);
      LogStore(sh, mem, SetPointer2(mem, table, i, p), history, unused);
      mem := mem.(t2 := mem.t2[table := Put(mem.t2[table], i, p)]);
      history := history + [mem];
    }

    /** The interlocked exchange of the root pointer. */
    method Publish(next: Root)
      requires Tracked() && next.level == mem.root.level + 1 <= 2
      requires next.level == 1 ==> next.table in mem.t1 && At(mem.t1, next.table, 0) == mem.root.table
      requires next.level == 2 ==> next.table in mem.t2 && At(mem.t2, next.table, 0) == mem.root.table
      modifies this`mem, this`history
      ensures Tracked() && old(history) <= history && mem == old(mem).(root := next)
    {
      NewRootGrows(sh, mem, next);
      assert Addresses(mem.(root := next)) == Addresses(mem);
      LogStore(sh, mem, mem.(root := next), history, unused);
      mem := mem.(root := next);
      history := history + [mem];
    }

    /** Allocates a table above the current root and publishes it. */
    method Migrate(ghost id: nat) returns (done: bool)
      requires Valid() && mem.root.level <= 1 && id >= Capacity(sh, mem)
      modifies this
      ensures Valid() && old(history) <= history
      ensures requests == old(requests) + 1 && (done <==> grants(old(requests)))
      ensures done ==> mem.root.level == old(mem.root.level) + 1 && Closer(sh, old(mem), mem, id, 1)
      ensures !done ==> mem == old(mem)
      ensures Unmoved(sh, old(mem), mem)
    {
      ghost var m := mem;
      var a := AllocateTable(mem.root.level + 1);
      if a == 0 {
        return false;
      }
      ReplaceRoot(a, m, id);
      done := true;
    }

    method ReplaceRoot(a: nat, ghost m: Memory, ghost id: nat)
      requires Tracked() && WellFormed(sh, m) && m.root.level <= 1 && Free(m, a)
      requires mem == AddBlock(sh, m, m.root.level + 1, a) && id >= Capacity(sh, m)
      modifies this`mem, this`history
      ensures Valid() && old(history) <= history
      ensures mem.root.level == m.root.level + 1 && Unmoved(sh, m, mem) && Closer(sh, m, mem, id, 1)
    {
      LinkOldRoot(a, m);
      Publish(Root(mem.root.level + 1, a));
      RootMigrated(sh, m, mem, a);
      MigratedMissing(sh, m, a, id);
    }

    /** Makes the old root the first child of the table at a. */
    method LinkOldRoot(a: nat, ghost m: Memory)
      requires Tracked() && WellFormed(sh, m) && m.root.level <= 1 && Free(m, a)
      requires mem == AddBlock(sh, m, m.root.level + 1, a)
      modifies this`mem, this`history
      ensures Tracked() && old(history) <= history
      ensures mem == Linked(sh, m, a) && mem.root == m.root
      ensures m.root.level == 0 ==> a in mem.t1 && At(mem.t1, a, 0) == m.root.table
      ensures m.root.level == 1 ==> a in mem.t2 && At(mem.t2, a, 0) == m.root.table
    {
      if mem.root.level == 0 {
        Store1(a, 0, mem.root.table);
      } else {
        Store2(a, 0, mem.root.table);
      }
    }

    /** Allocates the block of cells in entry i of a level 1 table. */
    method AddLeaf(table: nat, i: nat, ghost id: nat) returns (block: nat)
      requires Valid() && table in mem.t1 && i < sh.l1 && OnPath(sh, mem, table, i, id)
      requires At(mem.t1, table, i) == 0
      modifies this
      ensures Valid() && old(history) <= history
      ensures requests == old(requests) + 1 && (block != 0 <==> grants(old(requests)))
      ensures block == 0 ==> mem == old(mem)
      ensures block != 0 ==>
        && Lookup(sh, mem, id).Some? && At(mem.t1, table, i) == block
        && Serves(sh, old(mem), mem, id, Lookup(sh, mem, id))
        && mem.root == old(mem.root) && mem.t2 == old(mem.t2)
    {
      ghost var m := mem;
      block := AllocateTable(0);
      if block == 0 {
        return;
      }
      Store1(table, i, block);
      LeafAdded(sh, m, mem, table, i, block, id);
    }

    /** Allocates the level 1 table in entry i of the level 2 root. */
    method AddTable(i: nat) returns (table: nat)
      requires Valid() && mem.root.level == 2 && i < sh.l2 && At(mem.t2, mem.root.table, i) == 0
      modifies this
      ensures Valid() && old(history) <= history && mem.root == old(mem.root)
      ensures requests == old(requests) + 1 && (table != 0 <==> grants(old(requests)))
      ensures table == 0 ==> mem == old(mem)
      ensures table != 0 ==> At(mem.t2, mem.root.table, i) == table && forall j: nat :: At(mem.t1, table, j) == 0
      ensures Unmoved(sh, old(mem), mem)
    {
      ghost var m := mem;
      table := AllocateTable(1);
      if table == 0 {
        return;
      }
      TableWellFormed(sh, m, i, table);
      TableUnmoved(sh, m, i, table);
      Store2(mem.root.table, i, table);
    }

    /** KphpCidLookupEntry. */
    method LookupEntry(cid: nat) returns (entry: Option<Cell>)
      requires Valid()
      ensures entry == Lookup(sh, mem, cid / 4)
      ensures entry.Some? ==> forall j: nat :: Lookup(sh, mem, j) == entry <==> j == cid / 4
      ensures entry.Some? ==> entry.value.block in mem.t0 && entry.value.index < |mem.t0[entry.value.block]|
    {
      var id, root := cid / 4, mem.root;
      if root.level == 0 {
        entry := if id >= sh.l0 then None else Some(Cell(root.table, id));
      } else if root.level == 1 {
        if id >= Max1(sh) {
          return None;
        }
        entry := LookupBlock(root.table, id);
      } else {
        if id >= Max2(sh) {
          return None;
        }
        Below(id, sh.l2, Max1(sh));
        var table := mem.t2[root.table][Quot(id, Max1(sh))];
        if table == 0 {
          return None;
        }
        assert At(mem.t2, root.table, Quot(id, Max1(sh))) == table;
        entry := LookupBlock(table, Rem(id, Max1(sh)));
      }
      OwnCell(sh, mem, id);
    }

    /** The part of KphpCidLookupEntry below a level 1 table. */
    method LookupBlock(table: nat, r: nat) returns (entry: Option<Cell>)
      requires Valid() && table in mem.t1 && r < Max1(sh)
      ensures entry == Leaf(sh, mem, table, r)
    {
      Below(r, sh.l1, sh.l0);
      var block := mem.t1[table][Quot(r, sh.l0)];
      if block == 0 {
        return None;
      }
      entry := Some(Cell(block, Rem(r, sh.l0)));
    }

    /** Allocates the block of cells that the rest r of an id needs. */
    method FillEntry(table: nat, r: nat, ghost id: nat) returns (entry: Option<Cell>)
      requires Valid() && table in mem.t1 && Quot(r, sh.l0) < sh.l1
      requires OnPath(sh, mem, table, Quot(r, sh.l0), id)
      requires r == Rest(sh, mem, id)
      requires Lookup(sh, mem, id).None?
      modifies this
      ensures Valid() && old(history) <= history
      ensures Serves(sh, old(mem), mem, id, entry)
      ensures requests == old(requests) + 1 && (entry.Some? <==> grants(old(requests)))
    {
      var block := AddLeaf(table, Quot(r, sh.l0), id);
      if block == 0 {
        return None;
      }
      PathLookup(sh, mem, table, id);
      entry := Some(Cell(block, Rem(r, sh.l0)));
    }

    /** One more level, if the present root cannot have the id. */
    method MigrateFor(level: nat, id: nat) returns (done: bool, ghost n: nat)
      requires Valid() && Lookup(sh, mem, id).None? && mem.root.level >= level && level <= 1
      modifies this
      ensures Valid() && old(history) <= history && Unmoved(sh, old(mem), mem)
      ensures requests == old(requests) + n
      ensures done ==> mem.root.level > level || id < Capacity(sh, mem)
      ensures done ==> mem.root.level >= old(mem.root.level) && Closer(sh, old(mem), mem, id, n)
      ensures done <==> Granted(grants, old(requests), n)
      ensures !done ==> n == 1 && Missing(sh, old(mem), id) >= 1
    {
      done, n := true, 0;
      if mem.root.level == level && id >= Capacity(sh, mem) {
        n := 1;
        done := Migrate(id);
      }
    }

    /** The part of KphpCidExpandTableFor that gives the root enough levels for the id. */
    method GrowRoot(id: nat) returns (done: bool, ghost n: nat)
      requires Valid() && Lookup(sh, mem, id).None? && id < Max2(sh)
      modifies this
      ensures Valid() && old(history) <= history && Unmoved(sh, old(mem), mem)
      ensures requests == old(requests) + n
      ensures done ==> (mem.root.level == 2 || (mem.root.level == 1 && id < Max1(sh)))
      ensures done ==> Closer(sh, old(mem), mem, id, n)
      ensures done <==> Granted(grants, old(requests), n)
      ensures !done ==> n <= Missing(sh, old(mem), id)
    {
      ghost var first := requests;
      done, n := MigrateFor(0, id);
      if done && mem.root.level >= 1 {
        ghost var more: nat;
        done, more := MigrateFor(1, id);
        GrantedTwice(grants, first, n, more);
        n := n + more;
      }
    }

    /** KphpCidExpandTableFor, from the moment the spin lock is held. */
    method ExpandTableFor(cid: nat) returns (entry: Option<Cell>)
      requires Valid()
      modifies this
      ensures Valid() && old(history) <= history
      ensures Serves(sh, old(mem), mem, cid / 4, entry)
      ensures entry.Some? <==> cid / 4 < Max2(sh) && Granted(grants, old(requests), Missing(sh, old(mem), cid / 4))
      ensures entry.Some? ==> requests == old(requests) + Missing(sh, old(mem), cid / 4)
    {
      var id := cid / 4;
      if id >= Max2(sh) {
        return None;
      }
      entry := LookupEntry(cid);
      if entry.Some? {
        return;
      }
      entry := Expand(id);
    }

    /** The rest of it, for an id that has no cell yet. */
    method Expand(id: nat) returns (entry: Option<Cell>)
      requires Valid() && Lookup(sh, mem, id).None? && id < Max2(sh)
      modifies this
      ensures Valid() && old(history) <= history
      ensures Serves(sh, old(mem), mem, id, entry)
      ensures entry.Some? <==> Granted(grants, old(requests), Missing(sh, old(mem), id))
      ensures entry.Some? ==> requests == old(requests) + Missing(sh, old(mem), id)
    {
      ghost var m, first := mem, requests;
      ghost var n: nat;
      var done: bool;
      done, n := GrowRoot(id);
      if !done {
        GrantedTwice(grants, first, n, Missing(sh, m, id) - n);
        return None;
      }
      ghost var m1 := mem;
      entry := ExpandLevels(id);
      UnmovedServes(sh, m, m1, mem, id, entry);
      GrantedTwice(grants, first, n, Missing(sh, m1, id));
    }

    /** The part below the root, which now has enough levels for the id. */
    method ExpandLevels(id: nat) returns (entry: Option<Cell>)
      requires Valid() && Lookup(sh, mem, id).None? && id < Max2(sh)
      requires mem.root.level == 2 || (mem.root.level == 1 && id < Max1(sh))
      modifies this
      ensures Valid() && old(history) <= history
      ensures Serves(sh, old(mem), mem, id, entry)
      ensures entry.Some? <==> Granted(grants, old(requests), Missing(sh, old(mem), id))
      ensures entry.Some? ==> requests == old(requests) + Missing(sh, old(mem), id)
    {
      if mem.root.level == 1 {
        Below(id, sh.l1, sh.l0);
        assert At(mem.t1, mem.root.table, Quot(id, sh.l0)) == 0;
        entry := FillEntry(mem.root.table, id, id);
      } else {
        entry := ExpandLevel2(id);
      }
    }

    /** The level 1 table for an id, which is allocated if it is missing. */
    method TableFor(id: nat) returns (table: nat, ghost n: nat)
      requires Valid() && Lookup(sh, mem, id).None? && id < Max2(sh) && mem.root.level == 2
      modifies this
      ensures Valid() && old(history) <= history && mem.root == old(mem.root) && Unmoved(sh, old(mem), mem)
      ensures requests == old(requests) + n && n + 1 == Missing(sh, old(mem), id)
      ensures table != 0 <==> Granted(grants, old(requests), n)
      ensures table != 0 ==>
        && At(mem.t2, mem.root.table, Quot(id, Max1(sh))) == table
        && At(mem.t1, table, Quot(Rem(id, Max1(sh)), sh.l0)) == 0
    {
      Below(id, sh.l2, Max1(sh));
      table, n := At(mem.t2, mem.root.table, Quot(id, Max1(sh))), 0;
      if table == 0 {
        n := 1;
        table := AddTable(Quot(id, Max1(sh)));
      }
    }

    method ExpandLevel2(id: nat) returns (entry: Option<Cell>)
      requires Valid() && Lookup(sh, mem, id).None? && id < Max2(sh) && mem.root.level == 2
      modifies this
      ensures Valid() && old(history) <= history
      ensures Serves(sh, old(mem), mem, id, entry)
      ensures entry.Some? <==> Granted(grants, old(requests), Missing(sh, old(mem), id))
      ensures entry.Some? ==> requests == old(requests) + Missing(sh, old(mem), id)
    {
      ghost var m, first := mem, requests;
      ghost var n: nat;
      var table: nat;
      table, n := TableFor(id);
      GrantedTwice(grants, first, n, 1);
      if table == 0 {
        return None;
      }
      ghost var m1 := mem;
      entry := FillTable(table, id);
      UnmovedServes(sh, m, m1, mem, id, entry);
    }

    method FillTable(table: nat, id: nat) returns (entry: Option<Cell>)
      requires Valid() && Lookup(sh, mem, id).None? && id < Max2(sh) && mem.root.level == 2
      requires table != 0 && At(mem.t2, mem.root.table, Quot(id, Max1(sh))) == table
      requires At(mem.t1, table, Quot(Rem(id, Max1(sh)), sh.l0)) == 0
      modifies this
      ensures Valid() && old(history) <= history
      ensures Serves(sh, old(mem), mem, id, entry)
      ensures requests == old(requests) + 1 && (entry.Some? <==> Granted(grants, old(requests), 1))
    {
      Below(Rem(id, Max1(sh)), sh.l1, sh.l0);
      entry := FillEntry(table, Rem(id, Max1(sh)), id);
    }

    /** KphCidGetEntry: the cell of a CID, which is there from then on. */
    method GetEntry(cid: nat) returns (entry: Option<Cell>)
      requires Valid()
      modifies this
      ensures Valid() && old(history) <= history
      ensures Serves(sh, old(mem), mem, cid / 4, entry)
      ensures entry.Some? <==> cid / 4 < Max2(sh) && Granted(grants, old(requests), Missing(sh, old(mem), cid / 4))
      ensures entry.Some? ==> requests == old(requests) + Missing(sh, old(mem), cid / 4)
    {
      entry := LookupEntry(cid);
      if entry.Some? {
        LookupBelow(sh, mem, cid / 4);
        return;
      }
      entry := ExpandTableFor(cid);
    }

    /** KphCidAssignObject, on the cell of an id. */
    method AssignObject(entry: Cell, obj: nat, ghost id: nat)
      requires Valid() && Lookup(sh, mem, id) == Some(entry)
      modifies this`mem
      ensures Valid() && Assigned(sh, old(mem), mem, id, obj)
    {
      ghost var m := mem;
      mem := SetCell(mem, entry, obj);
      SetAll(sh, m, mem, id, entry, obj);
      LoggedSame(sh, m, mem, history, unused);
    }

    /** KphpCidEnumerateInvokeCallback on the cell of id n. */
    method InvokeCallback(entry: Cell, callback: Option<nat -> bool>, ghost m: Memory, ghost n: nat, visited: seq<nat>)
      returns (shown: seq<nat>, stopped: bool)
      requires WellFormed(sh, m) && n < Max2(sh) && Lookup(sh, m, n) == Some(entry)
      requires ShownUpTo(sh, m, mem, callback, n, visited)
      modifies this`mem
      ensures !stopped ==> ShownUpTo(sh, m, mem, callback, n + 1, shown)
      ensures stopped ==> callback.Some? && mem == m && shown == Expected(sh, m, callback)
    {
      SameLookup(sh, m, mem, n);
      assert Object(sh, mem, n) == Object(sh, m, n);
      var object_ := At(mem.t0, entry.block, entry.index);
      stopped := false;
      if callback.Some? {
        stopped := object_ != 0 && callback.value(object_);
        if stopped {
          StopAt(sh, m, n, callback.value);
        }
      } else {
        VisitOne(sh, m, mem, n, entry);
        mem := SetCell(mem, entry, 0);
      }
      shown := visited + (if object_ == 0 then [] else [object_]);
    }

    method EnumerateCell(block: nat, k: nat, callback: Option<nat -> bool>, ghost m: Memory, ghost base: nat,
        ghost n: nat, visited: seq<nat>)
      returns (shown: seq<nat>, stopped: bool)
      requires WellFormed(sh, m) && BlockRange(sh, m, block, base) && block != 0 && k < sh.l0 && n == base + k
      requires ShownUpTo(sh, m, mem, callback, n, visited)
      modifies this`mem
      ensures !stopped ==> ShownUpTo(sh, m, mem, callback, n + 1, shown)
      ensures stopped ==> callback.Some? && mem == m && shown == Expected(sh, m, callback)
    {
      BlockCell(sh, m, block, base, n);
      shown, stopped := InvokeCallback(Cell(block, k), callback, m, n, visited);
    }

    method EnumerateBlock(block: nat, callback: Option<nat -> bool>, ghost m: Memory, ghost base: nat, ghost end: nat,
        visited: seq<nat>)
      returns (shown: seq<nat>, stopped: bool)
      requires WellFormed(sh, m) && BlockRange(sh, m, block, base) && block != 0 && end == base + sh.l0
      requires ShownUpTo(sh, m, mem, callback, base, visited)
      modifies this`mem
      ensures !stopped ==> ShownUpTo(sh, m, mem, callback, end, shown)
      ensures stopped ==> callback.Some? && mem == m && shown == Expected(sh, m, callback)
    {
      shown, stopped := visited, false;
      ghost var n := base;
      // "== true" keeps the verifier from proving the parts of the invariant one by one.
      for k := 0 to sh.l0
        invariant n == base + k
        invariant ShownUpTo(sh, m, mem, callback, n, shown) == true
      {
        shown, stopped := EnumerateCell(block, k, callback, m, base, n, shown);
        if stopped {
          return;
        }
        n := n + 1;
      }
      assert n == end;
    }

    method EnumerateTable(table: nat, callback: Option<nat -> bool>, ghost m: Memory, ghost base: nat, ghost end: nat,
        visited: seq<nat>)
      returns (shown: seq<nat>, stopped: bool)
      requires WellFormed(sh, m) && TableRange(sh, m, table, base) && table != 0 && end == base + Max1(sh)
      requires ShownUpTo(sh, m, mem, callback, base, visited)
      modifies this`mem
      ensures !stopped ==> ShownUpTo(sh, m, mem, callback, end, shown)
      ensures stopped ==> callback.Some? && mem == m && shown == Expected(sh, m, callback)
    {
      shown, stopped := visited, false;
      ghost var n := base;
      for i := 0 to sh.l1
        invariant n == base + Times(i, sh.l0)
        invariant ShownUpTo(sh, m, mem, callback, n, shown)
      {
        LeafRange(sh, m, table, base, i, n);
        VisitedTables(sh, m, mem, callback.None?, n);
        assert Times(i + 1, sh.l0) == Times(i, sh.l0) + sh.l0;
        ghost var next := n + sh.l0;
        var block := At(mem.t1, table, i);
        if block == 0 {
          VisitNoBlock(sh, m, mem, callback.None?, n, next);
        } else {
          shown, stopped := EnumerateBlock(block, callback, m, n, next, shown);
          if stopped {
            return;
          }
        }
        n := next;
      }
      assert n == end;
    }

    /** KphpCidEnumerate: with a callback for KphCidEnumerate, and without one
        for KphCidRundown, which hands out and drops what it takes from the cells. */
    method Enumerate(callback: Option<nat -> bool>) returns (shown: seq<nat>)
      requires Valid()
      modifies this`mem
      ensures Valid() && shown == Expected(sh, old(mem), callback)
      ensures callback.Some? ==> mem == old(mem)
      ensures callback.None? ==> SameTables(old(mem), mem) && forall j: nat :: Object(sh, mem, j) == 0
    {
      ghost var m := mem;
      var stopped: bool;
      if mem.root.level == 0 {
        shown, stopped := EnumerateBlock(mem.root.table, callback, m, 0, sh.l0, []);
        if !stopped {
          EnumerationDone(sh, m, mem, callback, shown, sh.l0);
        }
      } else if mem.root.level == 1 {
        RootRange(sh, m);
        shown, stopped := EnumerateTable(mem.root.table, callback, m, 0, Max1(sh), []);
        if !stopped {
          EnumerationDone(sh, m, mem, callback, shown, Max1(sh));
        }
      } else {
        shown, stopped := EnumerateRoot(callback, m);
        if !stopped {
          EnumerationDone(sh, m, mem, callback, shown, Max2(sh));
        }
      }
      LoggedSame(sh, m, mem, history, unused);
    }

    method EnumerateRoot(callback: Option<nat -> bool>, ghost m: Memory) returns (shown: seq<nat>, stopped: bool)
      requires WellFormed(sh, m) && mem == m && m.root.level == 2
      modifies this`mem
      ensures !stopped ==> ShownUpTo(sh, m, mem, callback, Max2(sh), shown)
      ensures stopped ==> callback.Some? && mem == m && shown == Expected(sh, m, callback)
    {
      shown, stopped := [], false;
      ghost var n := 0;
      assert ValidShape(sh) && Visited(sh, m, mem, callback.None?, n) && GoesOn(callback, shown);
      assert Times(0, Max1(sh)) == 0 && Contents(sh, m, 0) == [];
      for h := 0 to sh.l2
        invariant n == Times(h, Max1(sh))
        invariant ShownUpTo(sh, m, mem, callback, n, shown)
      {
        EntryRange(sh, m, h);
        VisitedTables(sh, m, mem, callback.None?, n);
        assert Times(h + 1, Max1(sh)) == n + Max1(sh);
        ghost var next := n + Max1(sh);
        var table := At(mem.t2, mem.root.table, h);
        if table == 0 {
          VisitNoTable(sh, m, mem, callback.None?, n, next);
        } else {
          shown, stopped := EnumerateTable(table, callback, m, n, next, shown);
          if stopped {
            return;
          }
        }
        n := next;
      }
    }

    /** KphFree, which only an allocated block may be handed to. */
    method Free0(a: nat)
      requires a in mem.t0
      modifies this`mem
      ensures mem == old(mem).(t0 := old(mem).t0 - {a})
    {
      mem := mem.(t0 := mem.t0 - {a});
    }

    method Free1(a: nat)
      requires a in mem.t1
      modifies this`mem
      ensures mem == old(mem).(t1 := old(mem).t1 - {a})
    {
      mem := mem.(t1 := mem.t1 - {a});
    }

    method Free2(a: nat)
      requires a in mem.t2
      modifies this`mem
      ensures mem == old(mem).(t2 := old(mem).t2 - {a})
    {
      mem := mem.(t2 := mem.t2 - {a});
    }

    /** Frees the blocks of an allocated level 1 table. */
    method FreeBlocks(table: nat)
      requires table in mem.t1 && Distinct(mem.t1[table]) && Children(mem.t1[table]) <= mem.t0.Keys
      modifies this`mem
      ensures mem == old(mem).(t0 := old(mem).t0 - old(Children(mem.t1[table])))
    {
      ghost var m := mem;
      for j := 0 to |mem.t1[table]|
        invariant mem == m.(t0 := m.t0 - Children(m.t1[table][..j]))
      {
        OneMoreChild(m.t1[table], j);
        var block := mem.t1[table][j];
        if block != 0 {
          assert block in Children(m.t1[table]);
          Free0(block);
          assert m.t0 - Children(m.t1[table][..j + 1]) == m.t0 - Children(m.t1[table][..j]) - {block};
        }
      }
      assert m.t1[table][..|m.t1[table]|] == m.t1[table];
    }

    /** Frees the tables of the level 2 root, each after its blocks. */
    method FreeTables(ghost m: Memory)
      requires WellFormed(sh, m) && m.root.level == 2 && mem == m
      modifies this`mem
      ensures mem == m.(t0 := map[], t1 := map[])
    {
      ghost var entries := m.t2[m.root.table];
      NoneRemain(sh, m, entries);
      for i := 0 to |mem.t2[mem.root.table]|
        invariant mem == Remaining(m, entries, i)
      {
        FreeEntry(i, m, entries);
      }
    }

    method FreeEntry(i: nat, ghost m: Memory, ghost entries: seq<nat>)
      requires WellFormed(sh, m) && m.root.level == 2 && entries == m.t2[m.root.table] && i < |entries|
      requires mem == Remaining(m, entries, i)
      modifies this`mem
      ensures mem == Remaining(m, entries, i + 1)
    {
      var table := mem.t2[mem.root.table][i];
      if table != 0 {
        EntryRemains(sh, m, entries, i);
        EntryGone(m, entries, i);
        FreeBlocks(table);
        Free1(table);
      } else {
        NoEntry(m, entries, i);
      }
    }

    /** KphCidTableDelete: every block is freed, and none twice. */
    method Delete()
      requires Valid()
      modifies this`mem
      ensures Addresses(mem) == {}
    {
      ghost var m := mem;
      if mem.root.level == 0 {
        Free0(mem.root.table);
      } else if mem.root.level == 1 {
        TableDistinct(m, m.root.table);
        AllBelow1(sh, m);
        FreeBlocks(mem.root.table);
        Free1(mem.root.table);
      } else {
        FreeTables(m);
        Free2(mem.root.table);
      }
    }
  }
}
