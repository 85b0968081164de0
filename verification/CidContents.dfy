/**
 The objects of a CID table as one list in ascending id order.
 */
module CidContents {
  import opened CidMemory
  import opened Division
  import opened Wrappers

  /** The objects stored under the ids below n, in ascending id order. */
  function Contents(sh: Shape, m: Memory, n: nat): seq<nat>
    requires ValidShape(sh)
  {
    if n == 0 then []
    else
      var obj := Object(sh, m, n - 1);
      Contents(sh, m, n - 1) + (if obj == 0 then [] else [obj])
  }

  /** All objects of the table. */
  function All(sh: Shape, m: Memory): seq<nat>
    requires ValidShape(sh)
  {
    Contents(sh, m, Max2(sh))
  }

  lemma {:induction false} EmptyRange(sh: Shape, m: Memory, a: nat, b: nat)
    requires ValidShape(sh) && a <= b && forall id :: a <= id < b ==> Object(sh, m, id) == 0
    ensures Contents(sh, m, b) == Contents(sh, m, a)
  {
    if a < b {
      EmptyRange(sh, m, a, b - 1);
    }
  }

  /** The objects up to and including the first at which the callback stops. */
  function UpToFirst(stop: nat -> bool, objects: seq<nat>): seq<nat> {
    if objects == [] then []
    else if stop(objects[0]) then [objects[0]]
    else [objects[0]] + UpToFirst(stop, objects[1..])
  }

  lemma {:induction false} NoStop(stop: nat -> bool, objects: seq<nat>)
    requires forall x :: x in objects ==> !stop(x)
    ensures UpToFirst(stop, objects) == objects
  {
    if objects != [] {
      NoStop(stop, objects[1..]);
    }
  }

  lemma {:induction false} StopHere(stop: nat -> bool, before: seq<nat>, obj: nat, after: seq<nat>)
    requires (forall x :: x in before ==> !stop(x)) && stop(obj)
    ensures UpToFirst(stop, before + [obj] + after) == before + [obj]
  {
    var objects := before + [obj] + after;
    if before != [] {
      StopHere(stop, before[1..], obj, after);
      assert objects[1..] == before[1..] + [obj] + after;
    }
  }

  lemma {:induction false} ContentsPrefix(sh: Shape, m: Memory, a: nat, b: nat)
    requires ValidShape(sh) && a <= b
    ensures Contents(sh, m, a) <= Contents(sh, m, b)
  {
    if a < b {
      ContentsPrefix(sh, m, a, b - 1);
    }
  }

  /** The enumeration may stop at the object of id n. */
  lemma StopAt(sh: Shape, m: Memory, n: nat, stop: nat -> bool)
    requires ValidShape(sh) && n < Max2(sh) && Object(sh, m, n) != 0
    requires stop(Object(sh, m, n)) && forall x :: x in Contents(sh, m, n) ==> !stop(x)
    ensures UpToFirst(stop, All(sh, m)) == Contents(sh, m, n + 1)
  {
    ContentsPrefix(sh, m, n + 1, Max2(sh));
    var rest := All(sh, m)[|Contents(sh, m, n + 1)|..];
    assert All(sh, m) == Contents(sh, m, n) + [Object(sh, m, n)] + rest;
    StopHere(stop, Contents(sh, m, n), Object(sh, m, n), rest);
  }

  /** Exactly the stored objects are listed, each under its own id. */
  lemma {:induction false} ContentsComplete(sh: Shape, m: Memory, n: nat, id: nat)
    requires ValidShape(sh) && id < n && Object(sh, m, id) != 0
    ensures var k := |Contents(sh, m, id)|; k < |Contents(sh, m, n)| && Contents(sh, m, n)[k] == Object(sh, m, id)
  {
    ContentsPrefix(sh, m, id + 1, n);
    assert Contents(sh, m, id + 1)[|Contents(sh, m, id)|] == Object(sh, m, id);
  }

  /** Exchanges the pointer in one cell. */
  function SetCell(m: Memory, c: Cell, obj: nat): Memory {
    if c.block in m.t0 && c.index < |m.t0[c.block]| then
      m.(t0 := m.t0[c.block := Put(m.t0[c.block], c.index, obj)])
    else m
  }

  function Put(s: seq<nat>, i: nat, p: nat): seq<nat>
    requires i < |s|
  {
    s[i := p]
  }

  /** Only the contents of the cells differ. */
  ghost predicate SameTables(m: Memory, m': Memory) {
    && m'.root == m.root && m'.t1 == m.t1 && m'.t2 == m.t2 && m'.t0.Keys == m.t0.Keys
    && forall a :: a in m.t0 ==> |m'.t0[a]| == |m.t0[a]|
  }

  lemma SameLookup(sh: Shape, m: Memory, m': Memory, id: nat)
    requires ValidShape(sh) && SameTables(m, m')
    ensures Lookup(sh, m', id) == Lookup(sh, m, id)
  {
  }

  lemma SameReadable(sh: Shape, m: Memory, m': Memory)
    requires Readable(sh, m) && SameTables(m, m')
    ensures Readable(sh, m')
  {
  }

  lemma SameWellFormed(sh: Shape, m: Memory, m': Memory)
    requires WellFormed(sh, m) && SameTables(m, m')
    ensures WellFormed(sh, m')
  {
    SameReadable(sh, m, m');
    if m'.root.level >= 1 {
      forall b | b in m'.t0 ensures exists a :: a in m'.t1 && Child(m'.t1, a, b) {
        assert b in m.t0;
      }
    }
  }

  lemma CellsAfterSet(m: Memory, c: Cell, obj: nat, d: Cell)
    requires c.block in m.t0 && c.index < |m.t0[c.block]|
    ensures SameTables(m, SetCell(m, c, obj))
    ensures At(SetCell(m, c, obj).t0, d.block, d.index) == if d == c then obj else At(m.t0, d.block, d.index)
  {
  }

  /** A cell that an id leads to exists. */
  lemma CellExists(sh: Shape, m: Memory, id: nat)
    requires WellFormed(sh, m) && Lookup(sh, m, id).Some?
    ensures var c := Lookup(sh, m, id).value; c.block in m.t0 && c.index < |m.t0[c.block]|
  {
  }

  /** Setting the cell of an id leaves every other id alone. */
  lemma SetOne(sh: Shape, m: Memory, id: nat, obj: nat, j: nat)
    requires WellFormed(sh, m) && Lookup(sh, m, id).Some?
    ensures var m' := SetCell(m, Lookup(sh, m, id).value, obj);
      SameTables(m, m') && Object(sh, m', j) == if j == id then obj else Object(sh, m, j)
  {
    var c := Lookup(sh, m, id).value;
    var other := Lookup(sh, m, j);
    CellExists(sh, m, id);
    CellsAfterSet(m, c, obj, c);
    SameLookup(sh, m, SetCell(m, c, obj), j);
    if other.Some? {
      CellsAfterSet(m, c, obj, other.value);
    }
    if other == Some(c) {
      LookupInjective(sh, m, id, j);
    }
  }

  /** The ids from base on lead to the blocks of one level 1 table. */
  ghost predicate TableRange(sh: Shape, m: Memory, table: nat, base: nat)
    requires ValidShape(sh)
  {
    && base + Max1(sh) <= Max2(sh)
    && forall j: nat :: base <= j < base + Max1(sh) ==>
         Lookup(sh, m, j) == if table == 0 then None else Leaf(sh, m, table, j - base)
  }

  /** The ids from base on lead to the cells of one block. */
  ghost predicate BlockRange(sh: Shape, m: Memory, block: nat, base: nat)
    requires ValidShape(sh)
  {
    && base + sh.l0 <= Max2(sh)
    && forall j: nat :: base <= j < base + sh.l0 ==>
         Lookup(sh, m, j) == if block == 0 then None else Some(Cell(block, j - base))
  }

  lemma RootRange(sh: Shape, m: Memory)
    requires WellFormed(sh, m) && m.root.level == 1
    ensures TableRange(sh, m, m.root.table, 0)
  {
  }

  lemma EntryRange(sh: Shape, m: Memory, h: nat)
    requires WellFormed(sh, m) && m.root.level == 2 && h < sh.l2
    ensures TableRange(sh, m, At(m.t2, m.root.table, h), Times(h, Max1(sh)))
  {
    Monotone(h + 1, sh.l2, Max1(sh));
    forall j: nat | Times(h, Max1(sh)) <= j < Times(h, Max1(sh)) + Max1(sh)
      ensures Lookup(sh, m, j)
           == (var table := At(m.t2, m.root.table, h);
               if table == 0 then None else Leaf(sh, m, table, j - Times(h, Max1(sh))))
    {
      EntryAt(sh, m, h, j, j - Times(h, Max1(sh)));
    }
  }

  lemma EntryAt(sh: Shape, m: Memory, h: nat, j: nat, r: nat)
    requires WellFormed(sh, m) && m.root.level == 2 && h < sh.l2
    requires r < Max1(sh) && j == Times(h, Max1(sh)) + r
    ensures Lookup(sh, m, j)
         == (var table := At(m.t2, m.root.table, h); if table == 0 then None else Leaf(sh, m, table, r))
  {
    Monotone(h + 1, sh.l2, Max1(sh));
    Decompose(h, r, Max1(sh));
  }

  lemma LeafRange(sh: Shape, m: Memory, table: nat, base: nat, i: nat, first: nat)
    requires WellFormed(sh, m) && TableRange(sh, m, table, base) && table != 0 && i < sh.l1
    requires first == base + Times(i, sh.l0)
    ensures BlockRange(sh, m, At(m.t1, table, i), first)
  {
    Monotone(i + 1, sh.l1, sh.l0);
    forall j: nat | first <= j < first + sh.l0
      ensures Lookup(sh, m, j)
           == (var block := At(m.t1, table, i); if block == 0 then None else Some(Cell(block, j - first)))
    {
      LeafAt(sh, m, table, i, j - base, j - first);
    }
  }

  lemma LeafAt(sh: Shape, m: Memory, table: nat, i: nat, r: nat, k: nat)
    requires ValidShape(sh) && k < sh.l0 && r == Times(i, sh.l0) + k
    ensures Leaf(sh, m, table, r)
         == (var block := At(m.t1, table, i); if block == 0 then None else Some(Cell(block, k)))
  {
    Decompose(i, k, sh.l0);
  }
}
