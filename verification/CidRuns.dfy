/**
 The sections that the tracking of processes and threads consists of, in any order.

 Each section is what the code does in one interlocked operation or under one lock.
 Whoever performs it holds the references it needs; which of the notifications it is
 part of does not matter, so every interleaving of notifications is a run.
 */
module CidRuns {
  import opened CidLinks
  import opened CidTracking

  datatype Section =
    | NewProcess(p: nat, cid: nat)
    | NewThread(t: nat, cid: nat, p: nat)       // takes over a reference to p, unless it is 0
    | LinkThread(t: nat)
    | TakeFromCell(cid: nat)
    | Duplicate(o: nat)
    | Put(cid: nat, o: nat)                     // the exchange; 0 empties the cell
    | SetSystem(p: nat)
    | RemoveEntry(p: nat, i: nat, unlinked: nat)
    | ClearSlot(p: nat)
    | Give(o: nat)                              // KphDereferenceObject

  /** A thread is linked by its creator, who alone knows it; a link is removed by someone
      who holds its process or its thread. */
  predicate Enabled(w: World, a: Section) {
    match a
    case NewProcess(p, _) => p > 0 && !Alive(w, p)
    case NewThread(t, _, p) => t > 0 && !Alive(w, t) && (p != 0 ==> p in w.refs && p in w.processes)
    case LinkThread(t) =>
      && t in w.refs && t in w.threads && w.threads[t].count == 1 && !w.threads[t].inList
      && w.threads[t].process in w.processes
    case TakeFromCell(cid) => cid in w.cells
    case Duplicate(o) => o in w.refs
    case Put(cid, o) => o != 0 ==> o in w.refs && Cid(w, o) == cid
    case SetSystem(p) => p != 0 ==> p in w.refs && p in w.processes
    case RemoveEntry(p, i, _) =>
      p in w.processes && i < |w.processes[p].list| && w.processes[p].list[i] in w.threads && w.processes[p].number > 0
      && (p in w.refs || w.processes[p].list[i] in w.refs)
    case ClearSlot(p) =>
      p in w.processes && w.processes[p].initial != 0 && (p in w.refs || w.processes[p].initial in w.refs)
    case Give(o) => o in w.refs && CountOf(w, o) > 0 && (o in w.threads ==> o !in w.processes)
  }

  function Apply(w: World, a: Section): World
    requires Enabled(w, a)
  {
    match a
    case NewProcess(p, cid) => WithProcess(w, p, cid)
    case NewThread(t, cid, p) => WithThread(w, t, cid, p)
    case LinkThread(t) => Linked(w, t)
    case TakeFromCell(cid) => WithRef(w, w.cells[cid])
    case Duplicate(o) => WithRef(w, o)
    case Put(cid, o) => Exchanged(w, cid, o)
    case SetSystem(p) => WithSystem(w, p)
    case RemoveEntry(p, i, unlinked) => Unlisted(w, p, i, unlinked)
    case ClearSlot(p) => WithoutInitial(w, p)
    case Give(o) => WithoutRef(w, o)
  }

  function WithRef(w: World, o: nat): World {
    Counted(w, o, 1).(refs := w.refs + multiset{o})
  }

  /** One reference less; with the last one the delete procedure runs. */
  function WithoutRef(w: World, o: nat): World
    requires CountOf(w, o) > 0 && (o in w.threads ==> o !in w.processes)
  {
    if CountOf(w, o) > 1 then Counted(w, o, -1).(refs := w.refs - multiset{o})
    else if o in w.threads then WithoutThread(w, o)
    else WithoutProcess(w, o)
  }

  lemma InCellAlive(w: World, cid: nat)
    requires Inv(w) && cid in w.cells
    ensures Alive(w, w.cells[cid])
  {
    assert CellOk(w, cid);
  }

  lemma GiveKeeps(w: World, o: nat)
    requires Inv(w) && Enabled(w, Give(o))
    ensures Inv(WithoutRef(w, o))
  {
    Kinds(w, o);
    if CountOf(w, o) > 1 {
      LessRef(w, o);
    } else if o in w.threads {
      FreeThread(w, o);
    } else {
      FreeProcess(w, o);
    }
  }

  /** Every section keeps every count exact. */
  lemma SectionKeeps(w: World, a: Section)
    requires Inv(w) && Enabled(w, a)
    ensures Inv(Apply(w, a))
  {
    match a
    case NewProcess(p, cid) => CidLinks.NewProcess(w, p, cid);
    case NewThread(t, cid, p) => CidLinks.NewThread(w, t, cid, p);
    case LinkThread(t) => Link(w, t);
    case TakeFromCell(cid) =>
      InCellAlive(w, cid);
      AddRef(w, w.cells[cid]);
    case Duplicate(o) =>
      Kinds(w, o);
      AddRef(w, o);
    case Put(cid, o) => Exchange(w, cid, o);
    case SetSystem(p) => CidLinks.SetSystem(w, p);
    case RemoveEntry(p, i, unlinked) => Unlist(w, p, i, unlinked);
    case ClearSlot(p) => ClearInitial(w, p);
    case Give(o) => GiveKeeps(w, o);
  }

  const NOBODY := World(map[], map[], map[], 0, multiset{})

  ghost predicate Next(w: World, w': World) {
    exists a :: Enabled(w, a) && w' == Apply(w, a)
  }

  ghost predicate IsRun(run: seq<World>) {
    run != [] && run[0] == NOBODY && forall k :: 0 <= k < |run| - 1 ==> Next(run[k], run[k + 1])
  }

  lemma NextKeeps(w: World, w': World)
    requires Inv(w) && Next(w, w')
    ensures Inv(w')
  {
    var a :| Enabled(w, a) && w' == Apply(w, a);
    SectionKeeps(w, a);
  }

  /** However the sections of notifications, lookups and cleanup interleave, all counts
      are exact, so the assertions of the delete procedures hold. */
  lemma {:induction false} RunsKeep(run: seq<World>, k: nat)
    requires IsRun(run) && k < |run|
    ensures Inv(run[k])
  {
    if k > 0 {
      RunsKeep(run, k - 1);
      NextKeeps(run[k - 1], run[k]);
    }
  }

  /** The processes that have links but are not in the table. */
  function Astray(w: World): set<nat> {
    set p | p in w.processes && HasLinks(w.processes[p]) && !Tabled(w, p)
  }

  /** The process with links that an exchange takes out of its cell, if any. */
  function Ousted(w: World, cid: nat, o: nat): set<nat> {
    if cid in w.cells && w.cells[cid] != o && w.cells[cid] in w.processes && HasLinks(w.processes[w.cells[cid]])
    then {w.cells[cid]} else {}
  }

  /** What a section makes of them: a process with links that leaves its cell goes astray,
      and so does one that has left it and gets a thread; it is found again when it gets
      back into its cell, or loses its last link. */
  function AstrayAfter(w: World, a: Section): set<nat>
    requires Enabled(w, a)
  {
    match a
    case LinkThread(t) =>
      var p := w.threads[t].process;
      Astray(w) + if Tabled(w, p) then {} else {p}
    case Put(cid, o) => Astray(w) - {o} + Ousted(w, cid, o)
    case RemoveEntry(p, _, _) =>
      var x := w.processes[p];
      Astray(w) - if |x.list| == 1 && x.initial == 0 then {p} else {}
    case ClearSlot(p) => Astray(w) - if w.processes[p].list == [] then {p} else {}
    case _ => Astray(w)
  }

  /** Only the count of one context is different. */
  lemma CountedAstray(w: World, o: nat, delta: int, refs: multiset<nat>)
    requires CountOf(w, o) + delta >= 0 && (o in w.threads ==> o !in w.processes)
    ensures Astray(Counted(w, o, delta).(refs := refs)) == Astray(w)
  {
    var w' := Counted(w, o, delta).(refs := refs);
    CountedLinks(w, o, delta, refs);
    forall p | p in w.processes ensures p in Astray(w') <==> p in Astray(w) {
      assert w'.processes[p] == w.processes[p].(count := w'.processes[p].count);
    }
    assert forall p :: p in Astray(w') ==> p in w.processes;
  }

  lemma GiveAstray(w: World, o: nat)
    requires Inv(w) && Enabled(w, Give(o))
    ensures Astray(WithoutRef(w, o)) == Astray(w)
  {
    Kinds(w, o);
    if CountOf(w, o) > 1 {
      CountedAstray(w, o, -1, w.refs - multiset{o});
    } else if o in w.threads {
      SameAstray(w, WithoutThread(w, o));
    } else {
      LastProcessRef(w, o);
      FreedAstray(w, o);
    }
  }

  lemma SameAstray(w: World, w': World)
    requires w'.processes == w.processes && w'.cells == w.cells
    ensures Astray(w') == Astray(w)
  {
  }

  lemma FreedAstray(w: World, p: nat)
    requires p in w.processes && !HasLinks(w.processes[p])
    ensures Astray(WithoutProcess(w, p)) == Astray(w)
  {
    var w' := WithoutProcess(w, p);
    forall q | q in w'.processes ensures q in Astray(w') <==> q in Astray(w) {
      assert w'.processes[q] == w.processes[q];
    }
  }

  /** A process of another CID stays where it is. */
  lemma PutElsewhere(w: World, cid: nat, o: nat, p: nat)
    requires Enabled(w, Put(cid, o)) && p in w.processes && w.processes[p].cid != cid
    ensures Tabled(Exchanged(w, cid, o), p) == Tabled(w, p)
  {
  }

  lemma PutHere(w: World, cid: nat, o: nat, p: nat)
    requires Inv(w) && Enabled(w, Put(cid, o)) && p in w.processes && w.processes[p].cid == cid
    ensures Tabled(Exchanged(w, cid, o), p) == (p == o)
    ensures Tabled(w, p) <==> cid in w.cells && w.cells[cid] == p
  {
    Positive(w);
  }

  /** The cell of a CID holds a context of that CID. */
  lemma PutOwners(w: World, cid: nat, o: nat)
    requires Inv(w) && Enabled(w, Put(cid, o))
    ensures o in w.processes ==> w.processes[o].cid == cid
    ensures cid in w.cells && w.cells[cid] in w.processes ==> w.processes[w.cells[cid]].cid == cid
  {
    Kinds(w, o);
    Positive(w);
    if cid in w.cells {
      InCell(w, cid);
      Kinds(w, w.cells[cid]);
    }
  }

  lemma PutOne(w: World, cid: nat, o: nat, p: nat)
    requires Inv(w) && Enabled(w, Put(cid, o)) && p in w.processes && HasLinks(w.processes[p])
    ensures Tabled(Exchanged(w, cid, o), p) <==> p == o || (Tabled(w, p) && p !in Ousted(w, cid, o))
  {
    PutOwners(w, cid, o);
    if w.processes[p].cid == cid {
      PutHere(w, cid, o, p);
    } else {
      PutElsewhere(w, cid, o, p);
    }
  }

  lemma OustedTabled(w: World, cid: nat, o: nat, p: nat)
    requires Inv(w) && Enabled(w, Put(cid, o)) && p in Ousted(w, cid, o)
    ensures p in w.processes && HasLinks(w.processes[p]) && Tabled(w, p) && p != o
  {
    PutOwners(w, cid, o);
  }

  lemma PutAstray(w: World, cid: nat, o: nat)
    requires Inv(w) && Enabled(w, Put(cid, o))
    ensures Astray(Exchanged(w, cid, o)) == Astray(w) - {o} + Ousted(w, cid, o)
  {
    var w', out := Exchanged(w, cid, o), Ousted(w, cid, o);
    forall p | p in w.processes && HasLinks(w.processes[p])
      ensures Tabled(w', p) <==> p == o || (Tabled(w, p) && p !in out)
    {
      PutOne(w, cid, o, p);
    }
    forall p | p in out ensures p in w.processes && HasLinks(w.processes[p]) && Tabled(w, p) && p != o {
      OustedTabled(w, cid, o, p);
    }
    ExchangeAstray(w, w', o, out);
  }

  lemma ExchangeAstray(w: World, w': World, o: nat, out: set<nat>)
    requires w'.processes == w.processes
    requires forall p :: p in w.processes && HasLinks(w.processes[p]) ==>
      (Tabled(w', p) <==> p == o || (Tabled(w, p) && p !in out))
    requires forall p :: p in out ==> p in w.processes && HasLinks(w.processes[p]) && Tabled(w, p) && p != o
    ensures Astray(w') == Astray(w) - {o} + out
  {
  }

  lemma LinkAstray(w: World, t: nat)
    requires Enabled(w, LinkThread(t))
    ensures Astray(Linked(w, t)) == AstrayAfter(w, LinkThread(t))
  {
    var w', p := Linked(w, t), w.threads[t].process;
    forall q ensures q in Astray(w') <==> q in AstrayAfter(w, LinkThread(t)) {
      assert q in w.processes && q != p ==> w'.processes[q] == w.processes[q];
    }
  }

  lemma RemoveAstray(w: World, p: nat, i: nat, unlinked: nat)
    requires Enabled(w, RemoveEntry(p, i, unlinked))
    ensures Astray(Unlisted(w, p, i, unlinked)) == AstrayAfter(w, RemoveEntry(p, i, unlinked))
  {
    var w' := Unlisted(w, p, i, unlinked);
    assert |w'.processes[p].list| == |w.processes[p].list| - 1;
    forall q ensures q in Astray(w') <==> q in AstrayAfter(w, RemoveEntry(p, i, unlinked)) {
      assert q in w.processes && q != p ==> w'.processes[q] == w.processes[q];
    }
  }

  lemma ClearAstray(w: World, p: nat)
    requires Enabled(w, ClearSlot(p))
    ensures Astray(WithoutInitial(w, p)) == AstrayAfter(w, ClearSlot(p))
  {
    var w' := WithoutInitial(w, p);
    forall q ensures q in Astray(w') <==> q in AstrayAfter(w, ClearSlot(p)) {
      assert q in w.processes && q != p ==> w'.processes[q] == w.processes[q];
    }
  }

  lemma NewAstray(w: World, p: nat, cid: nat)
    requires Enabled(w, NewProcess(p, cid))
    ensures Astray(WithProcess(w, p, cid)) == Astray(w)
  {
    var w' := WithProcess(w, p, cid);
    forall q | q in w'.processes ensures q in Astray(w') <==> q in Astray(w) {
      assert q != p ==> w'.processes[q] == w.processes[q];
    }
  }

  /** The effect of every section on the processes that are astray, in any state. */
  lemma AstrayStep(w: World, a: Section)
    requires Inv(w) && Enabled(w, a)
    ensures Astray(Apply(w, a)) == AstrayAfter(w, a)
  {
    match a
    case NewProcess(p, cid) => NewAstray(w, p, cid);
    case NewThread(_, _, _) => SameAstray(w, Apply(w, a));
    case LinkThread(t) => LinkAstray(w, t);
    case TakeFromCell(cid) =>
      InCell(w, cid);
      Kinds(w, w.cells[cid]);
      CountedAstray(w, w.cells[cid], 1, w.refs + multiset{w.cells[cid]});
    case Duplicate(o) =>
      Kinds(w, o);
      CountedAstray(w, o, 1, w.refs + multiset{o});
    case Put(cid, o) => PutAstray(w, cid, o);
    case SetSystem(_) => SameAstray(w, Apply(w, a));
    case RemoveEntry(p, i, unlinked) => RemoveAstray(w, p, i, unlinked);
    case ClearSlot(p) => ClearAstray(w, p);
    case Give(o) => GiveAstray(w, o);
  }

  lemma AttachedMeans(w: World)
    ensures Attached(w) <==> Astray(w) == {}
  {
    if p :| p in w.processes && HasLinks(w.processes[p]) && !Tabled(w, p) {
      assert p in Astray(w);
    }
  }

  /** When every cell and slot is empty and nobody holds a reference, everything is
      freed, if and only if no process is astray. */
  lemma AllFreed(run: seq<World>, k: nat)
    requires IsRun(run) && k < |run|
    requires run[k].cells == map[] && run[k].system == 0 && run[k].refs == multiset{}
    ensures (run[k].threads == map[] && run[k].processes == map[]) <==> Astray(run[k]) == {}
  {
    RunsKeep(run, k);
    AttachedMeans(run[k]);
    if Astray(run[k]) == {} {
      NothingLeft(run[k]);
    }
  }

  /** Process 1 and its thread 2, out of the table and referenced by each other only. */
  ghost predicate Orphaned(w: World) {
    && 1 in w.processes && w.processes[1] == Process(4, 1, [2], 1, 0, 2)
    && 2 in w.threads && w.threads[2] == Thread(8, 2, true, 1)
    && 1 !in w.refs && 2 !in w.refs && w.system != 1
    && forall cid :: cid in w.cells ==> w.cells[cid] != 1 && w.cells[cid] != 2
  }

  /** No other thread points back to the process, which would be one more reference. */
  lemma OnlyThread(w: World, t: nat)
    requires Inv(w) && Orphaned(w) && t in w.threads && w.threads[t].process == 1
    ensures t == 2
  {
    assert ProcessOk(w, 1);
    if t != 2 {
      assert {t, 2} <= Members(w.threads, 1);
      SubsetSize({t, 2}, Members(w.threads, 1));
      assert false;
    }
  }

  lemma {:induction false} SubsetSize(a: set<nat>, b: set<nat>)
    requires a <= b
    ensures |a| <= |b|
  {
    if x :| x in a {
      SubsetSize(a - {x}, b - {x});
    }
  }

  lemma FreeLeavesOrphans(w: World, t: nat)
    requires Inv(w) && Orphaned(w) && t in w.threads && t != 2 && t in w.refs
    ensures Orphaned(WithoutThread(w, t))
  {
    if w.threads[t].process == 1 {
      OnlyThread(w, t);
      assert false;
    }
    assert ThreadOk(w, t) && ThreadOk(w, 2);
  }

  lemma GiveLeavesOrphans(w: World, o: nat)
    requires Inv(w) && Orphaned(w) && Enabled(w, Give(o))
    ensures Orphaned(WithoutRef(w, o))
  {
    if CountOf(w, o) == 1 && o in w.threads {
      FreeLeavesOrphans(w, o);
    }
  }

  lemma RemoveLeavesOrphans(w: World, p: nat, i: nat, unlinked: nat)
    requires Inv(w) && Orphaned(w) && Enabled(w, RemoveEntry(p, i, unlinked))
    ensures Orphaned(Apply(w, RemoveEntry(p, i, unlinked)))
  {
    Listed(w, p, i);
    if p == 1 {
      assert false;
    }
  }

  lemma ClearLeavesOrphans(w: World, p: nat)
    requires Inv(w) && Orphaned(w) && Enabled(w, ClearSlot(p))
    ensures Orphaned(Apply(w, ClearSlot(p)))
  {
    assert ProcessOk(w, p);
  }

  /** Taking a context, and creating or storing one: none of the two is at hand. */
  lemma TakeLeavesOrphans(w: World, o: nat)
    requires Orphaned(w) && o != 1 && o != 2
    ensures Orphaned(WithRef(w, o))
  {
  }

  lemma CreateLeavesOrphans(w: World, a: Section)
    requires Orphaned(w) && Enabled(w, a) && (a.NewProcess? || a.NewThread?)
    ensures Orphaned(Apply(w, a))
  {
  }

  lemma PutLeavesOrphans(w: World, cid: nat, o: nat)
    requires Orphaned(w) && Enabled(w, Put(cid, o))
    ensures Orphaned(Exchanged(w, cid, o))
  {
  }

  lemma SlotLeavesOrphans(w: World, p: nat)
    requires Inv(w) && Orphaned(w) && Enabled(w, SetSystem(p))
    ensures Orphaned(WithSystem(w, p))
  {
    Kinds(w, w.system);
  }

  lemma LinkLeavesOrphans(w: World, t: nat)
    requires Inv(w) && Orphaned(w) && Enabled(w, LinkThread(t))
    ensures Orphaned(Linked(w, t))
  {
    if w.threads[t].process == 1 {
      OnlyThread(w, t);
      assert false;
    }
  }

  /** Whatever happens afterwards, they stay: no section can be enabled that would drop
      one of their references. */
  lemma OrphansStay(w: World, a: Section)
    requires Inv(w) && Orphaned(w) && Enabled(w, a)
    ensures Orphaned(Apply(w, a))
  {
    match a
    case Give(o) => GiveLeavesOrphans(w, o);
    case RemoveEntry(p, i, unlinked) => RemoveLeavesOrphans(w, p, i, unlinked);
    case ClearSlot(p) => ClearLeavesOrphans(w, p);
    case LinkThread(t) => LinkLeavesOrphans(w, t);
    case TakeFromCell(cid) => TakeLeavesOrphans(w, w.cells[cid]);
    case Duplicate(o) => TakeLeavesOrphans(w, o);
    case NewProcess(_, _) => CreateLeavesOrphans(w, a);
    case NewThread(_, _, _) => CreateLeavesOrphans(w, a);
    case Put(cid, o) => PutLeavesOrphans(w, cid, o);
    case SetSystem(p) => SlotLeavesOrphans(w, p);
  }

  ghost predicate EndsIn(run: seq<World>, w: World) {
    IsRun(run) && run[|run| - 1] == w
  }

  lemma Extends(run: seq<World>, w: World, a: Section, w': World) returns (run': seq<World>)
    requires EndsIn(run, w) && Enabled(w, a) && Apply(w, a) == w'
    ensures EndsIn(run', w') && run <= run'
  {
    run' := run + [w'];
    assert Next(w, w');
  }

  /** Process 1 alone, and with thread 2. */
  function Alone(cells: map<nat, nat>, count: nat, refs: multiset<nat>): World {
    World(cells, map[1 := Process(4, count, [], 0, 0, 0)], map[], 0, refs)
  }

  function Both(cells: map<nat, nat>, count: nat, refs: multiset<nat>): World {
    World(cells, map[1 := Process(4, 1, [2], 1, 0, 2)], map[2 := Thread(8, count, true, 1)], 0, refs)
  }

  lemma AloneTaken(cells: map<nat, nat>, count: nat, refs: multiset<nat>)
    ensures WithRef(Alone(cells, count, refs), 1) == Alone(cells, count + 1, refs + multiset{1})
  {
  }

  lemma AloneGiven(cells: map<nat, nat>, count: nat, refs: multiset<nat>)
    requires 1 in refs && count > 1
    ensures Enabled(Alone(cells, count, refs), Give(1))
    ensures Apply(Alone(cells, count, refs), Give(1)) == Alone(cells, count - 1, refs - multiset{1})
  {
  }

  lemma BothTaken(cells: map<nat, nat>, count: nat, refs: multiset<nat>)
    ensures WithRef(Both(cells, count, refs), 2) == Both(cells, count + 1, refs + multiset{2})
  {
  }

  lemma BothGiven(cells: map<nat, nat>, count: nat, refs: multiset<nat>)
    requires 2 in refs && count > 1
    ensures Enabled(Both(cells, count, refs), Give(2))
    ensures Apply(Both(cells, count, refs), Give(2)) == Both(cells, count - 1, refs - multiset{2})
  {
  }

  /** Process 1 is created and put into the table, and its creator lets go of it. */
  lemma ProcessTracked() returns (run: seq<World>)
    ensures EndsIn(run, Alone(map[4 := 1], 1, multiset{}))
  {
    run := [NOBODY];
    run := Extends(run, NOBODY, NewProcess(1, 4), Alone(map[], 1, multiset{1}));
    AloneTaken(map[], 1, multiset{1});
    run := Extends(run, Alone(map[], 1, multiset{1}), Duplicate(1), Alone(map[], 2, multiset{1, 1}));
    run := Extends(run, Alone(map[], 2, multiset{1, 1}), Put(4, 1), Alone(map[4 := 1], 2, multiset{1}));
    AloneGiven(map[4 := 1], 2, multiset{1});
    run := Extends(run, Alone(map[4 := 1], 2, multiset{1}), Give(1), Alone(map[4 := 1], 1, multiset{}));
  }

  /** The creator of thread 2 looks process 1 up, and so does who untracks it. */
  lemma ProcessFound() returns (run: seq<World>)
    ensures EndsIn(run, Alone(map[4 := 1], 3, multiset{1, 1}))
  {
    run := ProcessTracked();
    AloneTaken(map[4 := 1], 1, multiset{});
    run := Extends(run, Alone(map[4 := 1], 1, multiset{}), TakeFromCell(4), Alone(map[4 := 1], 2, multiset{1}));
    AloneTaken(map[4 := 1], 2, multiset{1});
    run := Extends(run, Alone(map[4 := 1], 2, multiset{1}), TakeFromCell(4), Alone(map[4 := 1], 3, multiset{1, 1}));
  }

  lemma ProcessTakenOut()
    ensures Enabled(Alone(map[4 := 1], 3, multiset{1, 1}), Put(4, 0))
    ensures Apply(Alone(map[4 := 1], 3, multiset{1, 1}), Put(4, 0)) == Alone(map[], 3, multiset{1, 1, 1})
  {
    assert map[4 := 1] - {4} == map[];
  }

  /** The process is taken out of its cell and, having no threads, dropped twice. */
  lemma ProcessUntracked() returns (run: seq<World>)
    ensures EndsIn(run, Alone(map[], 1, multiset{1}))
  {
    run := ProcessFound();
    ProcessTakenOut();
    run := Extends(run, Alone(map[4 := 1], 3, multiset{1, 1}), Put(4, 0), Alone(map[], 3, multiset{1, 1, 1}));
    AloneGiven(map[], 3, multiset{1, 1, 1});
    run := Extends(run, Alone(map[], 3, multiset{1, 1, 1}), Give(1), Alone(map[], 2, multiset{1, 1}));
    AloneGiven(map[], 2, multiset{1, 1});
    run := Extends(run, Alone(map[], 2, multiset{1, 1}), Give(1), Alone(map[], 1, multiset{1}));
  }

  /** Only now the thread is created, and linked with the process. */
  lemma ThreadLinked() returns (run: seq<World>)
    ensures EndsIn(run, Both(map[], 3, multiset{2}))
  {
    var before := World(map[], map[1 := Process(4, 1, [], 0, 0, 0)], map[2 := Thread(8, 1, false, 1)], 0, multiset{2});
    run := ProcessUntracked();
    run := Extends(run, Alone(map[], 1, multiset{1}), NewThread(2, 8, 1), before);
    assert [] + [2] == [2];
    run := Extends(run, before, LinkThread(2), Both(map[], 3, multiset{2}));
  }

  /** It is put into the table, and its creator lets go of it. */
  lemma ThreadTracked() returns (run: seq<World>)
    ensures EndsIn(run, Both(map[8 := 2], 3, multiset{}))
  {
    run := ThreadLinked();
    BothTaken(map[], 3, multiset{2});
    run := Extends(run, Both(map[], 3, multiset{2}), Duplicate(2), Both(map[], 4, multiset{2, 2}));
    run := Extends(run, Both(map[], 4, multiset{2, 2}), Put(8, 2), Both(map[8 := 2], 4, multiset{2}));
    BothGiven(map[8 := 2], 4, multiset{2});
    run := Extends(run, Both(map[8 := 2], 4, multiset{2}), Give(2), Both(map[8 := 2], 3, multiset{}));
  }

  /** Cleanup takes the thread out of the table, and drops it: nothing is in the table
      any more, nobody holds a reference, and neither context is ever freed. */
  lemma OrphansArise() returns (run: seq<World>)
    ensures IsRun(run)
    ensures var w := run[|run| - 1]; w.cells == map[] && w.system == 0 && w.refs == multiset{} && Orphaned(w)
  {
    run := ThreadTracked();
    assert map[8 := 2] - {8} == map[];
    run := Extends(run, Both(map[8 := 2], 3, multiset{}), Put(8, 0), Both(map[], 3, multiset{2}));
    BothGiven(map[], 3, multiset{2});
    run := Extends(run, Both(map[], 3, multiset{2}), Give(2), Both(map[], 2, multiset{}));
  }

  /** A thread is in the list of a process, or in its initial thread slot. */
  predicate Pair(w: World, p: nat, t: nat) {
    p in w.processes && (t in w.processes[p].list || (t != 0 && w.processes[p].initial == t))
  }

  lemma CountedPairs(w: World, o: nat, delta: int, refs: multiset<nat>, p: nat, t: nat)
    requires CountOf(w, o) + delta >= 0 && (o in w.threads ==> o !in w.processes)
    ensures Pair(Counted(w, o, delta).(refs := refs), p, t) ==> Pair(w, p, t)
  {
    CountedLinks(w, o, delta, refs);
  }

  lemma GivePairs(w: World, o: nat, p: nat, t: nat)
    requires Inv(w) && Enabled(w, Give(o))
    ensures Pair(WithoutRef(w, o), p, t) ==> Pair(w, p, t)
  {
    Kinds(w, o);
    if CountOf(w, o) > 1 {
      CountedPairs(w, o, -1, w.refs - multiset{o}, p, t);
    }
  }

  lemma OtherPairs(w: World, a: Section, p: nat, t: nat)
    requires Inv(w) && Enabled(w, a) && !a.Give? && !a.TakeFromCell? && !a.Duplicate? && !a.LinkThread?
    ensures Pair(Apply(w, a), p, t) ==> Pair(w, p, t)
  {
  }

  lemma LinkPairs(w: World, u: nat, p: nat, t: nat)
    requires Enabled(w, LinkThread(u))
    ensures Pair(Linked(w, u), p, t) ==> Pair(w, p, t) || (t == u && p == w.threads[u].process)
  {
  }

  /** Only linking a thread makes a link. */
  lemma NewPair(w: World, a: Section, p: nat, t: nat)
    requires Inv(w) && Enabled(w, a) && Pair(Apply(w, a), p, t) && !Pair(w, p, t)
    ensures a == LinkThread(t) && p == w.threads[t].process
  {
    match a
    case Give(o) => GivePairs(w, o, p, t);
    case TakeFromCell(cid) =>
      InCell(w, cid);
      Kinds(w, w.cells[cid]);
      CountedPairs(w, w.cells[cid], 1, w.refs + multiset{w.cells[cid]}, p, t);
    case Duplicate(o) =>
      Kinds(w, o);
      CountedPairs(w, o, 1, w.refs + multiset{o}, p, t);
    case LinkThread(u) => LinkPairs(w, u, p, t);
    case _ => OtherPairs(w, a, p, t);
  }

  ghost predicate LinkStep(run: seq<World>, i: nat, t: nat) {
    i + 1 < |run| && Enabled(run[i], LinkThread(t)) && run[i + 1] == Linked(run[i], t)
  }

  /** Step i links thread t with its process p, and the link stays up to k. */
  ghost predicate LinkedFrom(run: seq<World>, i: nat, k: nat, p: nat, t: nat) {
    && i < k < |run| && LinkStep(run, i, t) && run[i].threads[t].process == p
    && forall j :: i < j <= k ==> Pair(run[j], p, t)
  }

  lemma {:induction false} LinkedSince(run: seq<World>, k: nat, p: nat, t: nat) returns (i: nat)
    requires IsRun(run) && k < |run| && Pair(run[k], p, t)
    ensures LinkedFrom(run, i, k, p, t)
  {
    if k == 0 {
      assert false;
    }
    if Pair(run[k - 1], p, t) {
      i := LinkedSince(run, k - 1, p, t);
    } else {
      JustLinked(run, k - 1, p, t);
      i := k - 1;
    }
  }

  lemma JustLinked(run: seq<World>, i: nat, p: nat, t: nat)
    requires IsRun(run) && i + 1 < |run| && Pair(run[i + 1], p, t) && !Pair(run[i], p, t)
    ensures LinkStep(run, i, t) && run[i].threads[t].process == p
  {
    RunsKeep(run, i);
    assert Next(run[i], run[i + 1]);
    LinkedNow(run[i], run[i + 1], p, t);
  }

  lemma LinkedNow(w: World, w': World, p: nat, t: nat)
    requires Inv(w) && Next(w, w') && Pair(w', p, t) && !Pair(w, p, t)
    ensures Enabled(w, LinkThread(t)) && w' == Linked(w, t) && w.threads[t].process == p
  {
    var a :| Enabled(w, a) && w' == Apply(w, a);
    NewPair(w, a, p, t);
  }

  predicate InTable(w: World, p: nat) {
    p in w.processes && Tabled(w, p)
  }

  predicate Unlinked(w: World, p: nat) {
    p in w.processes ==> !HasLinks(w.processes[p])
  }

  /** Step j takes a process out of the table. */
  ghost predicate Leaves(run: seq<World>, j: nat, p: nat) {
    j + 1 < |run| && InTable(run[j], p) && !InTable(run[j + 1], p)
  }

  /** Whoever takes a process out of the table unlinks its threads afterwards. */
  ghost predicate UnlinksAll(run: seq<World>) {
    forall j, p :: 0 <= j < |run| && Leaves(run, j, p) ==> exists m :: j < m < |run| && Unlinked(run[m], p)
  }

  lemma {:induction false} MomentOfLeaving(run: seq<World>, i: nat, k: nat, p: nat) returns (j: nat)
    requires i < k < |run| && InTable(run[i], p) && !InTable(run[k], p)
    ensures i <= j < k && Leaves(run, j, p)
  {
    if InTable(run[k - 1], p) {
      j := k - 1;
    } else {
      j := MomentOfLeaving(run, i, k - 1, p);
    }
  }

  /** A thread is linked with a process that is out of the table, and never unlinked. */
  ghost predicate LateLink(run: seq<World>, i: nat, t: nat) {
    LinkStep(run, i, t) && LateFor(run, i, run[i].threads[t].process, t)
  }

  ghost predicate LateFor(run: seq<World>, i: nat, p: nat, t: nat) {
    i < |run| && !InTable(run[i], p) && LinkedFrom(run, i, |run| - 1, p, t)
  }

  /** A link that is left when the table is empty was made too late. */
  lemma LeftLinkIsLate(run: seq<World>, p: nat, t: nat) returns (i: nat)
    requires IsRun(run) && UnlinksAll(run) && run[|run| - 1].cells == map[] && Pair(run[|run| - 1], p, t)
    ensures LateLink(run, i, t)
  {
    var k := |run| - 1;
    i := LinkedSince(run, k, p, t);
    if InTable(run[i], p) {
      var j := MomentOfLeaving(run, i, k, p);
      assert false;
    }
  }

  /** Every run in which processes are unlinked after they leave the table, and at the end
      of which table and system slot are empty and nobody holds a reference: everything is
      freed, if and only if no thread was linked with a process after that had left the
      table, and stayed linked. */
  lemma FreedUnlessLate(run: seq<World>)
    requires IsRun(run) && UnlinksAll(run)
    requires var w := run[|run| - 1]; w.cells == map[] && w.system == 0 && w.refs == multiset{}
    ensures var w := run[|run| - 1];
      (w.threads == map[] && w.processes == map[]) <==> !exists i: nat, t: nat :: LateLink(run, i, t)
  {
    var w := run[|run| - 1];
    AllFreed(run, |run| - 1);
    if i: nat, t: nat :| LateLink(run, i, t) {
      assert Pair(w, run[i].threads[t].process, t);
    }
    if p :| p in w.processes && HasLinks(w.processes[p]) {
      var t := if w.processes[p].list != [] then w.processes[p].list[0] else w.processes[p].initial;
      assert Pair(w, p, t);
      var i := LeftLinkIsLate(run, p, t);
    }
  }
}
