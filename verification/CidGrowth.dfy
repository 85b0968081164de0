/**
 The stores with which the CID table grows, one at a time: what each of them
 leaves intact, and what a completed expansion adds.
 */
module CidGrowth {
  import opened CidContents
  import opened CidMemory
  import opened Division
  import opened Wrappers

  function Zeros(n: nat): (s: seq<nat>)
    ensures |s| == n && forall i :: 0 <= i < n ==> s[i] == 0
  {
    seq(n, _ => 0)
  }

  predicate Free(m: Memory, a: nat) {
    a > 0 && a !in m.t0 && a !in m.t1 && a !in m.t2
  }

  /** A zeroed block of the given level is allocated at a. */
  function AddBlock(sh: Shape, m: Memory, level: nat, a: nat): Memory {
    if level == 0 then m.(t0 := m.t0[a := Zeros(sh.l0)])
    else if level == 1 then m.(t1 := m.t1[a := Zeros(sh.l1)])
    else m.(t2 := m.t2[a := Zeros(sh.l2)])
  }

  function SetPointer1(m: Memory, a: nat, i: nat, p: nat): Memory
    requires a in m.t1 && i < |m.t1[a]|
  {
    m.(t1 := m.t1[a := Put(m.t1[a], i, p)])
  }

  function SetPointer2(m: Memory, a: nat, i: nat, p: nat): Memory
    requires a in m.t2 && i < |m.t2[a]|
  {
    m.(t2 := m.t2[a := Put(m.t2[a], i, p)])
  }

  lemma AddBlockAt(sh: Shape, m: Memory, level: nat, a: nat)
    requires Free(m, a) && level <= 2
    ensures var m' := AddBlock(sh, m, level, a);
      && (forall b, i: nat :: At(m'.t1, b, i) == At(m.t1, b, i))
      && (forall b, i: nat :: At(m'.t2, b, i) == At(m.t2, b, i))
      && (forall b, i: nat :: At(m'.t0, b, i) == At(m.t0, b, i))
  {
  }

  lemma AddBlockGrows(sh: Shape, m: Memory, level: nat, a: nat)
    requires Readable(sh, m) && Free(m, a) && level <= 2
    ensures Readable(sh, AddBlock(sh, m, level, a)) && Grows(m, AddBlock(sh, m, level, a))
    ensures var m' := AddBlock(sh, m, level, a);
      && (forall b, i: nat :: At(m'.t1, b, i) == At(m.t1, b, i))
      && (forall b, i: nat :: At(m'.t2, b, i) == At(m.t2, b, i))
      && (forall b, i: nat :: At(m'.t0, b, i) == At(m.t0, b, i))
  {
    AddBlockAt(sh, m, level, a);
  }

  lemma SetPointer1Grows(sh: Shape, m: Memory, a: nat, i: nat, p: nat)
    requires Readable(sh, m) && a in m.t1 && i < sh.l1 && At(m.t1, a, i) == 0 && p in m.t0
    ensures var m' := SetPointer1(m, a, i, p);
      && Readable(sh, m') && Grows(m, m')
      && forall b, j: nat :: At(m'.t1, b, j) == if b == a && j == i then p else At(m.t1, b, j)
  {
    var m' := SetPointer1(m, a, i, p);
    assert forall b, j: nat :: At(m'.t1, b, j) == if b == a && j == i then p else At(m.t1, b, j);
    assert m'.t1.Keys == m.t1.Keys;
    assert forall b :: b in m'.t1 ==> b in m.t1 && |m'.t1[b]| == |m.t1[b]|;
  }

  lemma SetPointer2Grows(sh: Shape, m: Memory, a: nat, i: nat, p: nat)
    requires Readable(sh, m) && a in m.t2 && i < sh.l2 && At(m.t2, a, i) == 0 && p in m.t1
    ensures var m' := SetPointer2(m, a, i, p);
      && Readable(sh, m') && Grows(m, m')
      && forall b, j: nat :: At(m'.t2, b, j) == if b == a && j == i then p else At(m.t2, b, j)
  {
    var m' := SetPointer2(m, a, i, p);
    assert forall b, j: nat :: At(m'.t2, b, j) == if b == a && j == i then p else At(m.t2, b, j);
    assert m'.t2.Keys == m.t2.Keys;
    assert forall b :: b in m'.t2 ==> b in m.t2 && |m'.t2[b]| == |m.t2[b]|;
  }

  /** Publishing a new root whose first child is the old one. */
  lemma NewRootGrows(sh: Shape, m: Memory, root: Root)
    requires Readable(sh, m)
    requires root.level == m.root.level + 1 <= 2
    requires root.level == 1 ==> root.table in m.t1 && At(m.t1, root.table, 0) == m.root.table
    requires root.level == 2 ==> root.table in m.t2 && At(m.t2, root.table, 0) == m.root.table
    ensures Readable(sh, m.(root := root)) && Grows(m, m.(root := root))
  {
  }

  /** A new table at level 1 or 2 that holds the root as its first entry. */
  function Linked(sh: Shape, m: Memory, a: nat): Memory
    requires ValidShape(sh) && m.root.level <= 1
  {
    var m1 := AddBlock(sh, m, m.root.level + 1, a);
    if m.root.level == 0 then SetPointer1(m1, a, 0, m.root.table) else SetPointer2(m1, a, 0, m.root.table)
  }

  /** And that has replaced it. */
  function Migrated(sh: Shape, m: Memory, a: nat): Memory
    requires ValidShape(sh) && m.root.level <= 1
  {
    Linked(sh, m, a).(root := Root(m.root.level + 1, a))
  }

  lemma MigrateFrom0(sh: Shape, m: Memory, a: nat)
    requires WellFormed(sh, m) && Free(m, a) && m.root.level == 0
    ensures WellFormed(sh, Migrated(sh, m, a))
  {
    var m' := Migrated(sh, m, a);
    var m1 := AddBlock(sh, m, 1, a);
    AddBlockGrows(sh, m, 1, a);
    SetPointer1Grows(sh, m1, a, 0, m.root.table);
    NewRootGrows(sh, SetPointer1(m1, a, 0, m.root.table), m'.root);
    assert At(m'.t1, a, 0) == m.root.table;
    assert Child(m'.t1, a, m.root.table);
    assert forall b, j: nat :: At(m'.t1, b, j) != 0 ==> b == a && j == 0;
  }

  lemma MigrateFrom1(sh: Shape, m: Memory, a: nat)
    requires WellFormed(sh, m) && Free(m, a) && m.root.level == 1
    ensures WellFormed(sh, Migrated(sh, m, a))
  {
    var m' := Migrated(sh, m, a);
    var m1 := AddBlock(sh, m, 2, a);
    AddBlockGrows(sh, m, 2, a);
    SetPointer2Grows(sh, m1, a, 0, m.root.table);
    NewRootGrows(sh, SetPointer2(m1, a, 0, m.root.table), m'.root);
    assert At(m'.t2, a, 0) == m.root.table;
    assert Child(m'.t2, a, m.root.table);
    assert forall b, j: nat :: At(m'.t2, b, j) != 0 ==> b == a && j == 0;
  }

  /** A new root serves exactly the ids that the old one served. */
  lemma MigrateLookup(sh: Shape, m: Memory, a: nat, id: nat)
    requires WellFormed(sh, m) && Free(m, a) && m.root.level <= 1
    ensures Lookup(sh, Migrated(sh, m, a), id) == Lookup(sh, m, id)
    ensures Object(sh, Migrated(sh, m, a), id) == Object(sh, m, id)
  {
    var m' := Migrated(sh, m, a);
    if m.root.level == 0 {
      MigrateFrom0(sh, m, a);
      assert At(m'.t1, a, 0) == m.root.table;
      if id < sh.l0 {
        FirstBlock(sh, m', a, id);
      }
    } else {
      MigrateFrom1(sh, m, a);
      assert At(m'.t2, a, 0) == m.root.table;
      assert forall b, j: nat :: At(m'.t1, b, j) == At(m.t1, b, j);
      if id < Max1(sh) {
        FirstChild(sh, m', id);
      }
    }
  }

  /** A new table of pointers under the root of a three-level tree. */
  function WithTable(sh: Shape, m: Memory, i: nat, a: nat): Memory
    requires ValidShape(sh) && m.root.table in m.t2 && i < |m.t2[m.root.table]|
  {
    SetPointer2(AddBlock(sh, m, 1, a), m.root.table, i, a)
  }

  lemma TableWellFormed(sh: Shape, m: Memory, i: nat, a: nat)
    requires WellFormed(sh, m) && Free(m, a)
    requires m.root.level == 2 && i < sh.l2 && At(m.t2, m.root.table, i) == 0
    ensures WellFormed(sh, WithTable(sh, m, i, a))
    ensures var m' := WithTable(sh, m, i, a);
      && m'.root == m.root && At(m'.t2, m.root.table, i) == a
      && (forall b, j: nat :: At(m'.t1, b, j) == At(m.t1, b, j))
      && (forall b, j: nat :: At(m'.t2, b, j) == if b == m.root.table && j == i then a else At(m.t2, b, j))
  {
    var m' := WithTable(sh, m, i, a);
    AddBlockGrows(sh, m, 1, a);
    SetPointer2Grows(sh, AddBlock(sh, m, 1, a), m.root.table, i, a);
    assert Child(m'.t2, m'.root.table, a);
    forall b | b in m.t1 ensures Child(m'.t2, m'.root.table, b) {
      var j: nat :| At(m.t2, m.root.table, j) == b;
      assert At(m'.t2, m.root.table, j) == b;
    }
    forall b | b in m.t0 ensures exists c :: c in m'.t1 && Child(m'.t1, c, b) {
      var c :| c in m.t1 && Child(m.t1, c, b);
      var j: nat :| At(m.t1, c, j) == b;
      assert At(m'.t1, c, j) == b;
    }
  }

  lemma TableLookup(sh: Shape, m: Memory, i: nat, a: nat, id: nat)
    requires WellFormed(sh, m) && Free(m, a)
    requires m.root.level == 2 && i < sh.l2 && At(m.t2, m.root.table, i) == 0
    ensures Lookup(sh, WithTable(sh, m, i, a), id) == Lookup(sh, m, id)
    ensures Object(sh, WithTable(sh, m, i, a), id) == Object(sh, m, id)
  {
    TableWellFormed(sh, m, i, a);
  }

  /** A new block of cells in entry i of a table. */
  function WithLeaf(sh: Shape, m: Memory, table: nat, i: nat, a: nat): Memory
    requires ValidShape(sh) && table in m.t1 && i < |m.t1[table]|
  {
    SetPointer1(AddBlock(sh, m, 0, a), table, i, a)
  }

  lemma LeafWellFormed(sh: Shape, m: Memory, table: nat, i: nat, a: nat)
    requires WellFormed(sh, m) && Free(m, a)
    requires m.root.level >= 1 && table in m.t1 && i < sh.l1 && At(m.t1, table, i) == 0
    ensures WellFormed(sh, WithLeaf(sh, m, table, i, a))
    ensures var m' := WithLeaf(sh, m, table, i, a);
      && m'.root == m.root && m'.t2 == m.t2
      && (forall b, j: nat :: At(m'.t1, b, j) == if b == table && j == i then a else At(m.t1, b, j))
      && (forall b, j: nat :: At(m'.t0, b, j) == At(m.t0, b, j))
  {
    var m' := WithLeaf(sh, m, table, i, a);
    AddBlockGrows(sh, m, 0, a);
    SetPointer1Grows(sh, AddBlock(sh, m, 0, a), table, i, a);
    assert m'.t1.Keys == m.t1.Keys;
    assert At(m'.t1, table, i) == a;
    assert Child(m'.t1, table, a);
    forall b | b in m.t0 ensures exists c :: c in m'.t1 && Child(m'.t1, c, b) {
      var c :| c in m.t1 && Child(m.t1, c, b);
      var j: nat :| At(m.t1, c, j) == b;
      assert At(m'.t1, c, j) == b;
    }
  }

  /** The ids that share one block of cells. */
  predicate SameBlock(sh: Shape, i: nat, j: nat)
    requires ValidShape(sh)
  {
    Quot(i, Max1(sh)) == Quot(j, Max1(sh)) && Quot(Rem(i, Max1(sh)), sh.l0) == Quot(Rem(j, Max1(sh)), sh.l0)
  }

  /** The entry of a level 1 table on the path of an id. */
  ghost predicate OnPath(sh: Shape, m: Memory, table: nat, i: nat, id: nat)
    requires ValidShape(sh)
  {
    && table != 0
    && ((m.root == Root(1, table) && id < Max1(sh) && i == Quot(id, sh.l0))
        || (m.root.level == 2 && id < Max2(sh) && At(m.t2, m.root.table, Quot(id, Max1(sh))) == table
            && i == Quot(Rem(id, Max1(sh)), sh.l0)))
  }

  /** What a new block changes for the walk below a table. */
  lemma LeafWalk(sh: Shape, m: Memory, table: nat, i: nat, a: nat, below: nat, r: nat)
    requires WellFormed(sh, m) && Free(m, a) && m.root.level >= 1
    requires table in m.t1 && i < sh.l1 && At(m.t1, table, i) == 0
    ensures var m' := WithLeaf(sh, m, table, i, a);
      Leaf(sh, m', below, r)
      == if below == table && Quot(r, sh.l0) == i then Some(Cell(a, Rem(r, sh.l0))) else Leaf(sh, m, below, r)
  {
  }

  /** An id has a cell now; another one keeps its own, gets one only if it is in the same
      block, and keeps its object. */
  predicate LeafServesOne(sh: Shape, m: Memory, m': Memory, id: nat, j: nat)
    requires ValidShape(sh)
  {
    && Lookup(sh, m', id).Some?
    && (Lookup(sh, m, j).Some? ==> Lookup(sh, m', j) == Lookup(sh, m, j))
    && (Lookup(sh, m, j).None? && Lookup(sh, m', j).Some? ==> SameBlock(sh, j, id) && j < Max2(sh))
    && Object(sh, m', j) == Object(sh, m, j)
  }

  lemma LeafLookup(sh: Shape, m: Memory, table: nat, i: nat, a: nat, id: nat, j: nat)
    requires WellFormed(sh, m) && Free(m, a)
    requires table in m.t1 && i < sh.l1 && At(m.t1, table, i) == 0 && OnPath(sh, m, table, i, id)
    ensures LeafServesOne(sh, m, WithLeaf(sh, m, table, i, a), id, j)
  {
    if m.root.level == 1 {
      LeafLookup1(sh, m, table, i, a, id, j);
    } else {
      LeafLookup2(sh, m, table, i, a, id, j);
    }
  }

  lemma LeafLookup1(sh: Shape, m: Memory, table: nat, i: nat, a: nat, id: nat, j: nat)
    requires WellFormed(sh, m) && Free(m, a) && m.root.level == 1
    requires table in m.t1 && i < sh.l1 && At(m.t1, table, i) == 0 && OnPath(sh, m, table, i, id)
    ensures LeafServesOne(sh, m, WithLeaf(sh, m, table, i, a), id, j)
  {
    LeafWellFormed(sh, m, table, i, a);
    LeafWalk(sh, m, table, i, a, table, id);
    LeafWalk(sh, m, table, i, a, table, j);
    assert At(m.t0, a, Rem(j, sh.l0)) == 0;
  }

  lemma LeafLookup2(sh: Shape, m: Memory, table: nat, i: nat, a: nat, id: nat, j: nat)
    requires WellFormed(sh, m) && Free(m, a) && m.root.level == 2
    requires table in m.t1 && i < sh.l1 && At(m.t1, table, i) == 0 && OnPath(sh, m, table, i, id)
    ensures LeafServesOne(sh, m, WithLeaf(sh, m, table, i, a), id, j)
  {
    var below := At(m.t2, m.root.table, Quot(j, Max1(sh)));
    LeafWellFormed(sh, m, table, i, a);
    LeafWalk(sh, m, table, i, a, table, Rem(id, Max1(sh)));
    LeafWalk(sh, m, table, i, a, below, Rem(j, Max1(sh)));
    assert At(m.t0, a, Rem(j, sh.l0)) == 0;
  }
}
