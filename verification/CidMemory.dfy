/**
 The memory behind the CID table: a radix tree of one, two or three levels.

 An id is looked up by its quotients and remainders in a tree whose leaves are
 blocks of cells.  The tree grows at the root: the old root becomes the first
 child of the new one and is never copied.  Addresses are numbers; 0 is NULL.
 */
module CidMemory {
  import opened Division
  import opened Wrappers

  /** The number of entries of a block at each level (KPH_CID_L0_COUNT, ...). */
  datatype Shape = Shape(l0: nat, l1: nat, l2: nat)

  predicate ValidShape(sh: Shape) {
    sh.l0 > 0 && sh.l1 > 0 && sh.l2 > 0
  }

  /** The number of ids that a table of two, or of three, levels can serve. */
  function Max1(sh: Shape): (n: nat)
    ensures ValidShape(sh) ==> n >= sh.l0
  {
    Times(sh.l1, sh.l0)
  }

  function Max2(sh: Shape): (n: nat)
    ensures ValidShape(sh) ==> n >= Max1(sh)
  {
    Times(sh.l2, Max1(sh))
  }

  /** The shapes of the 64-bit and 32-bit builds: a page of cells, a page of
      pointers, and whatever the limit of 1 << 24 leaves for the third level. */
  function BuildShape(entrySize: nat): Shape
    requires entrySize == 8 || entrySize == 4
  {
    var count := 4096 / entrySize;
    Shape(count, count, 0x100_0000 / (count * count))
  }

  lemma BuildLimits(entrySize: nat)
    requires entrySize == 8 || entrySize == 4
    ensures ValidShape(BuildShape(entrySize)) && Max2(BuildShape(entrySize)) == 0x100_0000
  {
    var sh := BuildShape(entrySize);
    assert sh == if entrySize == 8 then Shape(512, 512, 64) else Shape(1024, 1024, 16);
    Product(sh.l1, sh.l0);
    Product(sh.l2, sh.l1 * sh.l0);
  }

  /** The address of a table entry: &tableL0[index]. */
  datatype Cell = Cell(block: nat, index: nat)

  /** The tagged root pointer: its two low bits give the level. */
  datatype Root = Root(level: nat, table: nat)

  datatype Memory = Memory(
    root: Root,
    t0: map<nat, seq<nat>>,   // blocks of cells; a cell holds an object or 0
    t1: map<nat, seq<nat>>,   // tables of pointers to blocks
    t2: map<nat, seq<nat>>)   // tables of pointers to tables

  function At(blocks: map<nat, seq<nat>>, a: nat, i: nat): nat {
    if a in blocks && i < |blocks[a]| then blocks[a][i] else 0
  }

  /** The walk below a level 1 table, for the remaining part r of an id. */
  function Leaf(sh: Shape, m: Memory, table: nat, r: nat): Option<Cell>
    requires ValidShape(sh)
  {
    var block := At(m.t1, table, Quot(r, sh.l0));
    if block == 0 then None else Some(Cell(block, Rem(r, sh.l0)))
  }

  /** KphpCidLookupEntry through a captured root. */
  function LookupFrom(sh: Shape, m: Memory, root: Root, id: nat): Option<Cell>
    requires ValidShape(sh)
  {
    if root.level == 0 then
      if id >= sh.l0 then None else Some(Cell(root.table, id))
    else if root.level == 1 then
      if id >= Max1(sh) then None else Leaf(sh, m, root.table, id)
    else
      if id >= Max2(sh) then None else
      var table := At(m.t2, root.table, Quot(id, Max1(sh)));
      if table == 0 then None else Leaf(sh, m, table, Rem(id, Max1(sh)))
  }

  function Lookup(sh: Shape, m: Memory, id: nat): Option<Cell>
    requires ValidShape(sh)
  {
    LookupFrom(sh, m, m.root, id)
  }

  /** The object stored under an id, 0 if none. */
  function Object(sh: Shape, m: Memory, id: nat): nat
    requires ValidShape(sh)
  {
    match Lookup(sh, m, id)
    case None => 0
    case Some(c) => At(m.t0, c.block, c.index)
  }

  /** Pointers lead to allocated tables of the right size. */
  ghost predicate Readable(sh: Shape, m: Memory) {
    && ValidShape(sh)
    && (forall a :: a in m.t0 ==> a > 0 && |m.t0[a]| == sh.l0)
    && (forall a :: a in m.t1 ==> a > 0 && |m.t1[a]| == sh.l1 && a !in m.t0)
    && (forall a :: a in m.t2 ==> a > 0 && |m.t2[a]| == sh.l2 && a !in m.t1 && a !in m.t0)
    && (forall a, i: nat :: At(m.t1, a, i) != 0 ==> At(m.t1, a, i) in m.t0)
    && (forall a, i: nat :: At(m.t2, a, i) != 0 ==> At(m.t2, a, i) in m.t1)
    && m.root.level <= 2
    && (m.root.level == 0 ==> m.root.table in m.t0)
    && (m.root.level == 1 ==> m.root.table in m.t1)
    && (m.root.level == 2 ==> m.root.table in m.t2)
  }

  /** No block is shared by two entries. */
  ghost predicate Unshared(m: Memory) {
    && (forall a, i: nat, b, j: nat :: At(m.t1, a, i) != 0 && At(m.t1, a, i) == At(m.t1, b, j) ==> a == b && i == j)
    && (forall a, i: nat, b, j: nat :: At(m.t2, a, i) != 0 && At(m.t2, a, i) == At(m.t2, b, j) ==> a == b && i == j)
  }

  ghost predicate Child(blocks: map<nat, seq<nat>>, a: nat, child: nat) {
    exists i: nat :: child != 0 && At(blocks, a, i) == child
  }

  /** Every allocated block hangs below the root. */
  ghost predicate Reached(m: Memory) {
    && (m.root.level == 0 ==> m.t0.Keys == {m.root.table} && m.t1 == map[])
    && (m.root.level == 1 ==> m.t1.Keys == {m.root.table})
    && (m.root.level <= 1 ==> m.t2 == map[])
    && (m.root.level == 2 ==> m.t2.Keys == {m.root.table})
    && (m.root.level >= 1 ==> forall b :: b in m.t0 ==> exists a :: a in m.t1 && Child(m.t1, a, b))
    && (m.root.level == 2 ==> forall a :: a in m.t1 ==> Child(m.t2, m.root.table, a))
  }

  ghost predicate WellFormed(sh: Shape, m: Memory) {
    Readable(sh, m) && Unshared(m) && Reached(m)
  }

  lemma LeafInjective(sh: Shape, m: Memory, a: nat, r: nat, b: nat, q: nat)
    requires WellFormed(sh, m)
    requires Leaf(sh, m, a, r).Some? && Leaf(sh, m, a, r) == Leaf(sh, m, b, q)
    ensures a == b && r == q
  {
    assert At(m.t1, a, Quot(r, sh.l0)) == At(m.t1, b, Quot(q, sh.l0)) != 0;
    Digits(r, q, sh.l0);
  }

  /** Different ids never share a cell. */
  lemma LookupInjective(sh: Shape, m: Memory, i: nat, j: nat)
    requires WellFormed(sh, m)
    requires Lookup(sh, m, i).Some? && Lookup(sh, m, i) == Lookup(sh, m, j)
    ensures i == j
  {
    if m.root.level == 1 {
      LeafInjective(sh, m, m.root.table, i, m.root.table, j);
    } else if m.root.level == 2 {
      var max1 := Max1(sh);
      var a, b := At(m.t2, m.root.table, Quot(i, max1)), At(m.t2, m.root.table, Quot(j, max1));
      LeafInjective(sh, m, a, Rem(i, max1), b, Rem(j, max1));
      Digits(i, j, max1);
    }
  }

  /** What any store of the table code may do to the memory. */
  ghost predicate Grows(m: Memory, m': Memory) {
    && m.t0.Keys <= m'.t0.Keys
    && (forall a, i: nat :: At(m.t1, a, i) != 0 ==> At(m'.t1, a, i) == At(m.t1, a, i))
    && (forall a, i: nat :: At(m.t2, a, i) != 0 ==> At(m'.t2, a, i) == At(m.t2, a, i))
    && Contains(m', m.root)
  }

  /** An older root is the current one, or its first child, or the first child
      of its first child. */
  predicate Contains(m: Memory, old_: Root) {
    || old_ == m.root
    || (m.root.level == 1 && old_.level == 0 && old_.table != 0 && At(m.t1, m.root.table, 0) == old_.table)
    || (m.root.level == 2 && old_.level == 1 && old_.table != 0 && At(m.t2, m.root.table, 0) == old_.table)
    || (m.root.level == 2 && old_.level == 0 && old_.table != 0 && At(m.t2, m.root.table, 0) != 0
        && At(m.t1, At(m.t2, m.root.table, 0), 0) == old_.table)
  }

  lemma GrowsTransitive(m: Memory, m': Memory, m'': Memory)
    requires Grows(m, m') && Grows(m', m'')
    ensures Grows(m, m'')
  {
  }

  /** The walk below the table that an id with a small enough value reaches. */
  lemma FirstChild(sh: Shape, m: Memory, id: nat)
    requires Readable(sh, m) && m.root.level == 2 && id < Max1(sh) && At(m.t2, m.root.table, 0) != 0
    ensures Lookup(sh, m, id) == Leaf(sh, m, At(m.t2, m.root.table, 0), id)
  {
  }

  lemma FirstBlock(sh: Shape, m: Memory, table: nat, id: nat)
    requires Readable(sh, m) && id < sh.l0 && At(m.t1, table, 0) != 0
    ensures Leaf(sh, m, table, id) == Some(Cell(At(m.t1, table, 0), id))
  {
  }

  lemma ContainedLookup(sh: Shape, m: Memory, root: Root, id: nat)
    requires Readable(sh, m) && Contains(m, root)
    requires LookupFrom(sh, m, root, id).Some?
    ensures Lookup(sh, m, id) == LookupFrom(sh, m, root, id)
  {
    if root != m.root {
      if m.root.level == 1 {
        FirstBlock(sh, m, m.root.table, id);
      } else {
        FirstChild(sh, m, id);
        if root.level == 0 {
          FirstBlock(sh, m, At(m.t2, m.root.table, 0), id);
        }
      }
    }
  }

  lemma GrowsFrom(sh: Shape, m: Memory, m': Memory, root: Root, id: nat)
    requires ValidShape(sh) && Grows(m, m') && LookupFrom(sh, m, root, id).Some?
    ensures LookupFrom(sh, m', root, id) == LookupFrom(sh, m, root, id)
  {
  }

  lemma GrowsLookup(sh: Shape, m: Memory, m': Memory, id: nat)
    requires Readable(sh, m') && ValidShape(sh) && Grows(m, m') && Lookup(sh, m, id).Some?
    ensures Lookup(sh, m', id) == Lookup(sh, m, id)
  {
    GrowsFrom(sh, m, m', m.root, id);
    ContainedLookup(sh, m', m.root, id);
  }

  /** A lookup without the lock reads at most three words, at three moments. */
  datatype Reader =
    | Start
    | AtTable2(table: nat)
    | AtTable1(table: nat, r: nat)
    | Done(result: Option<Cell>)

  /** One read of a lookup for an id. */
  function Read(sh: Shape, m: Memory, id: nat, reader: Reader): Reader
    requires ValidShape(sh)
  {
    match reader
    case Start =>
      if m.root.level == 0 then
        Done(if id >= sh.l0 then None else Some(Cell(m.root.table, id)))
      else if m.root.level == 1 then
        if id >= Max1(sh) then Done(None) else AtTable1(m.root.table, id)
      else
        if id >= Max2(sh) then Done(None) else AtTable2(m.root.table)
    case AtTable2(table) =>
      var next := At(m.t2, table, Quot(id, Max1(sh)));
      if next == 0 then Done(None) else AtTable1(next, Rem(id, Max1(sh)))
    case AtTable1(table, r) => Done(Leaf(sh, m, table, r))
    case Done(_) => reader
  }

  /** What a reader knows, which no later store can take away. */
  ghost predicate ReaderOk(sh: Shape, m: Memory, id: nat, reader: Reader)
    requires ValidShape(sh)
  {
    match reader
    case Start => true
    case AtTable2(table) => m.root == Root(2, table) && id < Max2(sh)
    case AtTable1(table, r) =>
      && table != 0
      && ((m.root == Root(1, table) && r == id < Max1(sh))
          || (m.root.level == 2 && id < Max2(sh) && r == Rem(id, Max1(sh))
              && At(m.t2, m.root.table, Quot(id, Max1(sh))) == table))
    case Done(result) => result.Some? ==> Lookup(sh, m, id) == result
  }

  lemma TableStays(sh: Shape, m: Memory, m': Memory, id: nat, table: nat, r: nat)
    requires Readable(sh, m) && Readable(sh, m') && Grows(m, m') && ReaderOk(sh, m, id, AtTable1(table, r))
    ensures ReaderOk(sh, m', id, AtTable1(table, r))
  {
  }

  lemma ReaderStays(sh: Shape, m: Memory, m': Memory, id: nat, reader: Reader)
    requires Readable(sh, m) && Readable(sh, m') && Grows(m, m') && ReaderOk(sh, m, id, reader)
    ensures ReaderOk(sh, m', id, reader)
  {
    match reader
    case Start =>
    case AtTable2(_) =>
    case AtTable1(table, r) =>
      TableStays(sh, m, m', id, table, r);
    case Done(result) =>
      if result.Some? {
        GrowsLookup(sh, m, m', id);
      }
  }

  lemma ReadKeeps(sh: Shape, m: Memory, id: nat, reader: Reader)
    requires Readable(sh, m) && ReaderOk(sh, m, id, reader)
    ensures ReaderOk(sh, m, id, Read(sh, m, id, reader))
  {
  }

  /** A sequence of memories as the table code leaves them behind, store by store. */
  ghost predicate Growth(sh: Shape, history: seq<Memory>) {
    && ValidShape(sh)
    && (forall i :: 0 <= i < |history| ==> Readable(sh, history[i]))
    && (forall i :: 0 <= i < |history| - 1 ==> Grows(history[i], history[i + 1]))
  }

  /** The reader after performing its reads at the given moments. */
  function Reads(sh: Shape, history: seq<Memory>, id: nat, moments: seq<nat>): Reader
    requires ValidShape(sh)
    requires forall k :: 0 <= k < |moments| ==> moments[k] < |history|
  {
    if moments == [] then Start
    else
      var n := |moments| - 1;
      Read(sh, history[moments[n]], id, Reads(sh, history, id, moments[..n]))
  }

  lemma {:induction false} GrowthIsGrows(sh: Shape, history: seq<Memory>, i: nat, j: nat)
    requires Growth(sh, history) && i <= j < |history|
    ensures Grows(history[i], history[j])
  {
    if i < j {
      GrowthIsGrows(sh, history, i, j - 1);
      GrowsTransitive(history[i], history[j - 1], history[j]);
    }
  }

  ghost predicate Ascending(moments: seq<nat>) {
    forall j, k :: 0 <= j < k < |moments| ==> moments[j] <= moments[k]
  }

  /** A lookup that runs while the table grows finds nothing or the one cell
      that the id has from then on, however its reads interleave with stores. */
  lemma {:induction false} LockFreeLookup(sh: Shape, history: seq<Memory>, id: nat, moments: seq<nat>, now: nat)
    requires Growth(sh, history) && now < |history|
    requires Ascending(moments) && forall k :: 0 <= k < |moments| ==> moments[k] <= now
    ensures ReaderOk(sh, history[now], id, Reads(sh, history, id, moments))
    decreases |moments|
  {
    if moments != [] {
      var n := |moments| - 1;
      LockFreeLookup(sh, history, id, moments[..n], moments[n]);
      ReadKeeps(sh, history[moments[n]], id, Reads(sh, history, id, moments[..n]));
      GrowthIsGrows(sh, history, moments[n], now);
      ReaderStays(sh, history[moments[n]], history[now], id, Reads(sh, history, id, moments));
    }
  }

  /** So a finished lookup returns NULL, or a cell that no other id ever gets. */
  lemma LockFreeResult(sh: Shape, history: seq<Memory>, id: nat, moments: seq<nat>, now: nat, cell: Cell, other: nat)
    requires Growth(sh, history) && now < |history| && WellFormed(sh, history[now])
    requires Ascending(moments) && forall k :: 0 <= k < |moments| ==> moments[k] <= now
    requires Reads(sh, history, id, moments) == Done(Some(cell))
    ensures Lookup(sh, history[now], id) == Some(cell)
    ensures Lookup(sh, history[now], other) == Some(cell) ==> other == id
  {
    LockFreeLookup(sh, history, id, moments, now);
    if Lookup(sh, history[now], other) == Some(cell) {
      LookupInjective(sh, history[now], id, other);
    }
  }

  /** Without stores in between, the reads amount to the lookup function. */
  lemma UndisturbedLookup(sh: Shape, m: Memory, id: nat)
    requires Readable(sh, m)
    ensures Reads(sh, [m], id, [0, 0, 0]) == Done(Lookup(sh, m, id))
  {
    var none: seq<nat> := [];
    assert [0, 0, 0][..2] == [0, 0] && [0, 0][..1] == [0] && [0][..0] == none;
    var first := Read(sh, m, id, Start);
    var second := Read(sh, m, id, first);
    assert Reads(sh, [m], id, none) == Start;
    assert Reads(sh, [m], id, [0]) == first;
    assert Reads(sh, [m], id, [0, 0]) == second;
    assert Reads(sh, [m], id, [0, 0, 0]) == Read(sh, m, id, second);
  }
}
