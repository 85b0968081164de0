/**
 What hangs below the tables of a CID table, for its deletion.
 */
module CidDelete {
  import opened CidMemory

  /** The blocks that the entries of one table point to. */
  function Children(entries: seq<nat>): set<nat> {
    set i | 0 <= i < |entries| && entries[i] != 0 :: entries[i]
  }

  /** The blocks two levels below the entries of a table. */
  function Grandchildren(t1: map<nat, seq<nat>>, entries: seq<nat>): set<nat> {
    if entries == [] then {}
    else
      var last := entries[|entries| - 1];
      Grandchildren(t1, entries[..|entries| - 1]) + (if last in t1 then Children(t1[last]) else {})
  }

  /** No two entries point to the same block. */
  ghost predicate Distinct(entries: seq<nat>) {
    forall i, j :: 0 <= i < j < |entries| && entries[i] != 0 ==> entries[i] != entries[j]
  }

  lemma OneMoreChild(entries: seq<nat>, i: nat)
    requires i < |entries|
    ensures Children(entries[..i + 1]) == Children(entries[..i]) + (if entries[i] == 0 then {} else {entries[i]})
    ensures Distinct(entries) ==> entries[i] !in Children(entries[..i])
  {
  }

  lemma {:induction false} ReachesGrandchild(t1: map<nat, seq<nat>>, entries: seq<nat>, b: nat)
    ensures b in Grandchildren(t1, entries)
       <==> exists k :: 0 <= k < |entries| && entries[k] in t1 && b in Children(t1[entries[k]])
  {
    if entries != [] {
      var n := |entries| - 1;
      var before := entries[..n];
      ReachesGrandchild(t1, before, b);
      if b in Grandchildren(t1, before) {
        var k :| 0 <= k < |before| && before[k] in t1 && b in Children(t1[before[k]]);
        assert entries[k] == before[k];
      }
      if k :| 0 <= k < |entries| && entries[k] in t1 && b in Children(t1[entries[k]]) {
        if k < n {
          assert before[k] == entries[k];
        }
      }
    }
  }

  lemma ChildIsEntry(blocks: map<nat, seq<nat>>, a: nat, b: nat)
    requires a in blocks && Child(blocks, a, b)
    ensures b in Children(blocks[a])
  {
  }

  lemma TableDistinct(m: Memory, a: nat)
    requires Unshared(m)
    ensures a in m.t1 ==> Distinct(m.t1[a])
    ensures a in m.t2 ==> Distinct(m.t2[a])
  {
    if a in m.t1 {
      forall i, j | 0 <= i < j < |m.t1[a]| && m.t1[a][i] != 0 ensures m.t1[a][i] != m.t1[a][j] {
        assert At(m.t1, a, i) == m.t1[a][i] && At(m.t1, a, j) == m.t1[a][j];
      }
    }
    if a in m.t2 {
      forall i, j | 0 <= i < j < |m.t2[a]| && m.t2[a][i] != 0 ensures m.t2[a][i] != m.t2[a][j] {
        assert At(m.t2, a, i) == m.t2[a][i] && At(m.t2, a, j) == m.t2[a][j];
      }
    }
  }

  /** Two tables share no block. */
  lemma ParentUnique(m: Memory, a: nat, b: nat, x: nat)
    requires Unshared(m) && a in m.t1 && b in m.t1
    requires x in Children(m.t1[a]) && x in Children(m.t1[b])
    ensures a == b
  {
    var i: nat :| i < |m.t1[a]| && m.t1[a][i] != 0 && m.t1[a][i] == x;
    var j: nat :| j < |m.t1[b]| && m.t1[b][j] == x;
    assert At(m.t1, a, i) == At(m.t1, b, j);
  }

  /** The blocks of a table are untouched while the tables before it go. */
  lemma StillThere(m: Memory, entries: seq<nat>, i: nat)
    requires Unshared(m) && Distinct(entries) && i < |entries| && entries[i] in m.t1 && entries[i] != 0
    ensures Grandchildren(m.t1, entries[..i]) !! Children(m.t1[entries[i]])
  {
    var before := entries[..i];
    forall x | x in Grandchildren(m.t1, before) ensures x !in Children(m.t1[entries[i]]) {
      ReachesGrandchild(m.t1, before, x);
      var k :| 0 <= k < |before| && before[k] in m.t1 && x in Children(m.t1[before[k]]);
      assert before[k] == entries[k];
      if x in Children(m.t1[entries[i]]) {
        ParentUnique(m, entries[k], entries[i], x);
      }
    }
  }

  /** The entries of a table point to allocated blocks. */
  lemma ChildrenExist(sh: Shape, m: Memory, a: nat)
    requires Readable(sh, m)
    ensures a in m.t1 ==> Children(m.t1[a]) <= m.t0.Keys
    ensures a in m.t2 ==> Children(m.t2[a]) <= m.t1.Keys
  {
    if a in m.t1 {
      forall b | b in Children(m.t1[a]) ensures b in m.t0 {
        var i :| 0 <= i < |m.t1[a]| && m.t1[a][i] != 0 && m.t1[a][i] == b;
        assert At(m.t1, a, i) == b;
      }
    }
    if a in m.t2 {
      forall b | b in Children(m.t2[a]) ensures b in m.t1 {
        var i :| 0 <= i < |m.t2[a]| && m.t2[a][i] != 0 && m.t2[a][i] == b;
        assert At(m.t2, a, i) == b;
      }
    }
  }

  /** Below a root of level 1 hangs every block. */
  lemma AllBelow1(sh: Shape, m: Memory)
    requires WellFormed(sh, m) && m.root.level == 1
    ensures m.t0.Keys == Children(m.t1[m.root.table])
  {
    ChildrenExist(sh, m, m.root.table);
    forall b | b in m.t0 ensures b in Children(m.t1[m.root.table]) {
      ChildIsEntry(m.t1, m.root.table, b);
    }
  }

  /** Below a root of level 2 hang every table and every block. */
  lemma AllBelow2(sh: Shape, m: Memory)
    requires WellFormed(sh, m) && m.root.level == 2
    ensures m.t1.Keys == Children(m.t2[m.root.table])
    ensures m.t0.Keys == Grandchildren(m.t1, m.t2[m.root.table])
  {
    var entries := m.t2[m.root.table];
    ChildrenExist(sh, m, m.root.table);
    forall a | a in m.t1 ensures a in Children(entries) {
      ChildIsEntry(m.t2, m.root.table, a);
    }
    forall b | b in m.t0 ensures b in Grandchildren(m.t1, entries) {
      var a :| a in m.t1 && Child(m.t1, a, b);
      ChildIsEntry(m.t1, a, b);
      assert a in Children(entries);
      var k :| 0 <= k < |entries| && entries[k] != 0 && entries[k] == a;
      ReachesGrandchild(m.t1, entries, b);
    }
    forall b | b in Grandchildren(m.t1, entries) ensures b in m.t0 {
      ReachesGrandchild(m.t1, entries, b);
      var k :| 0 <= k < |entries| && entries[k] in m.t1 && b in Children(m.t1[entries[k]]);
      ChildrenExist(sh, m, entries[k]);
    }
  }

  lemma OneMoreTable(t1: map<nat, seq<nat>>, entries: seq<nat>, i: nat)
    requires i < |entries|
    ensures Grandchildren(t1, entries[..i + 1])
         == Grandchildren(t1, entries[..i]) + (if entries[i] in t1 then Children(t1[entries[i]]) else {})
  {
    assert entries[..i + 1][..i] == entries[..i];
  }

  lemma LessOne(blocks: map<nat, seq<nat>>, gone: set<nat>, more: set<nat>)
    ensures blocks - gone - more == blocks - (gone + more)
  {
  }

  /** The memory once the tables of the first i entries are gone. */
  function Remaining(m: Memory, entries: seq<nat>, i: nat): Memory
    requires i <= |entries|
  {
    m.(t0 := m.t0 - Grandchildren(m.t1, entries[..i]), t1 := m.t1 - Children(entries[..i]))
  }

  /** The table of entry i can be freed, blocks first. */
  lemma EntryRemains(sh: Shape, m: Memory, entries: seq<nat>, i: nat)
    requires WellFormed(sh, m) && m.root.level == 2 && entries == m.t2[m.root.table] && i < |entries| && entries[i] != 0
    ensures var m' := Remaining(m, entries, i);
      && entries[i] in m'.t1 && m'.t1[entries[i]] == m.t1[entries[i]]
      && Distinct(m.t1[entries[i]]) && Children(m.t1[entries[i]]) <= m'.t0.Keys
  {
    TableDistinct(m, m.root.table);
    ChildrenExist(sh, m, m.root.table);
    OneMoreChild(entries, i);
    assert entries[i] in Children(entries);
    TableDistinct(m, entries[i]);
    ChildrenExist(sh, m, entries[i]);
    StillThere(m, entries, i);
  }

  lemma EntryGone(m: Memory, entries: seq<nat>, i: nat)
    requires i < |entries| && entries[i] in m.t1 && entries[i] != 0
    ensures Remaining(m, entries, i + 1)
         == (var before := Remaining(m, entries, i);
             before.(t0 := before.t0 - Children(m.t1[entries[i]]), t1 := before.t1 - {entries[i]}))
  {
    OneMoreChild(entries, i);
    OneMoreTable(m.t1, entries, i);
    LessOne(m.t0, Grandchildren(m.t1, entries[..i]), Children(m.t1[entries[i]]));
    LessOne(m.t1, Children(entries[..i]), {entries[i]});
  }

  lemma NoEntry(m: Memory, entries: seq<nat>, i: nat)
    requires i < |entries| && entries[i] == 0 && 0 !in m.t1
    ensures Remaining(m, entries, i + 1) == Remaining(m, entries, i)
  {
    OneMoreChild(entries, i);
    OneMoreTable(m.t1, entries, i);
  }

  lemma NoneRemain(sh: Shape, m: Memory, entries: seq<nat>)
    requires WellFormed(sh, m) && m.root.level == 2 && entries == m.t2[m.root.table]
    ensures Remaining(m, entries, 0) == m
    ensures Remaining(m, entries, |entries|) == m.(t0 := map[], t1 := map[])
  {
    AllBelow2(sh, m);
    assert entries[..|entries|] == entries;
  }
}
