/**
 Tracking of processes and threads by their CIDs.

 `Tracking` performs what the process and thread notifications do.  Every method
 that the code runs under a lock keeps the counts right on its own, so they stay
 right however such sections interleave; `held` are the references of callers and
 APCs, and `lost` those that the code forgets to drop.
 */
module CidTracking {
  import opened CidLinks

  datatype Kind = OfProcess | OfThread

  predicate HasLinks(x: Process) {
    x.list != [] || x.initial != 0
  }

  /** The cell of its CID leads to the process. */
  predicate Tabled(w: World, p: nat)
    requires p in w.processes
  {
    var cid := w.processes[p].cid;
    cid in w.cells && w.cells[cid] == p
  }

  /** Only processes that the table still knows are linked with threads. */
  predicate Attached(w: World) {
    forall p :: p in w.processes && HasLinks(w.processes[p]) ==> Tabled(w, p)
  }

  /** Contexts may have been freed and counts may have changed, and the links of
      the process `apart`, but nothing else. */
  ghost predicate Trimmed(w: World, w': World, apart: nat) {
    && w'.cells == w.cells && w'.system == w.system
    && w'.processes.Keys <= w.processes.Keys && w'.threads.Keys <= w.threads.Keys
    && (forall p :: p in w'.processes ==> w'.processes[p].cid == w.processes[p].cid)
    && (forall p :: p in w'.processes && Other(p, apart) ==> SameList(w.processes[p], w'.processes[p]))
    && (forall p :: p in w.processes && p !in w'.processes && Other(p, apart) ==> !HasLinks(w.processes[p]))
    && (forall t :: t in w'.threads ==> SameThread(w.threads[t], w'.threads[t], apart))
  }

  predicate Other(p: nat, apart: nat) {
    apart == 0 || p != apart
  }

  predicate SameList(x: Process, x': Process) {
    x'.list == x.list && x'.initial == x.initial && x'.number == x.number && x'.unlinked == x.unlinked
  }

  predicate SameThread(x: Thread, x': Thread, apart: nat) {
    x'.cid == x.cid && x'.process == x.process && (Other(x.process, apart) ==> x'.inList == x.inList)
  }

  lemma TrimmedTwice(w: World, w': World, w'': World, apart: nat)
    requires Trimmed(w, w', apart) && Trimmed(w', w'', apart)
    ensures Trimmed(w, w'', apart)
  {
  }

  /** Everything a method may rely on, and has to leave behind. */
  ghost predicate Ok(w: World, unused: nat) {
    Inv(w) && unused > 0 && forall o: nat :: Alive(w, o) ==> o < unused
  }

  lemma SameLinksTrimmed(w: World, w': World)
    requires SameLinks(w, w') && w'.cells == w.cells && w'.system == w.system
    ensures Trimmed(w, w', 0)
  {
  }

  lemma CountOk(w: World, w': World, o: nat, delta: int, unused: nat)
    requires Ok(w, unused) && Inv(w') && Alive(w, o) && CountOf(w, o) + delta >= 0
    requires w' == Counted(w, o, delta).(refs := w'.refs)
    ensures Ok(w', unused) && Trimmed(w, w', 0)
    ensures w'.processes.Keys == w.processes.Keys && w'.threads.Keys == w.threads.Keys
  {
    CountTrimmed(w, w', o, delta);
  }

  lemma CountTrimmed(w: World, w': World, o: nat, delta: int)
    requires Inv(w) && Alive(w, o) && CountOf(w, o) + delta >= 0
    requires w' == Counted(w, o, delta).(refs := w'.refs)
    ensures Trimmed(w, w', 0) && w'.processes.Keys == w.processes.Keys && w'.threads.Keys == w.threads.Keys
  {
    assert o in w.threads ==> ThreadOk(w, o);
    CountedLinks(w, o, delta, w'.refs);
    SameLinksTrimmed(w, w');
  }

  /** The records of other contexts are the same. */
  predicate Touched(w: World, w': World, o: nat) {
    && w'.processes.Keys == w.processes.Keys && w'.threads.Keys == w.threads.Keys
    && w'.processes - {o} == w.processes - {o} && w'.threads - {o} == w.threads - {o}
  }

  lemma Referenced(w: World, w': World, o: nat, unused: nat)
    requires Ok(w, unused) && Alive(w, o) && w' == Counted(w, o, 1).(refs := w.refs + multiset{o})
    ensures Ok(w', unused) && Trimmed(w, w', 0) && Touched(w, w', o)
  {
    AddRef(w, o);
    CountOk(w, w', o, 1, unused);
  }

  lemma Dereferenced(w: World, w': World, o: nat, unused: nat)
    requires Ok(w, unused) && o in w.refs && CountOf(w, o) > 1
    requires w' == Counted(w, o, -1).(refs := w.refs - multiset{o})
    ensures Ok(w', unused) && Trimmed(w, w', 0)
    ensures w'.processes.Keys == w.processes.Keys && w'.threads.Keys == w.threads.Keys
  {
    LessRef(w, o);
    CountOk(w, w', o, -1, unused);
  }

  lemma ProcessFreed(w: World, w': World, p: nat, unused: nat)
    requires Ok(w, unused) && p in w.refs && p in w.processes && w.processes[p].count == 1
    requires w' == WithoutProcess(w, p)
    ensures Ok(w', unused) && Trimmed(w, w', 0)
    ensures w.processes[p].list == [] && w.processes[p].number == 0 && w.processes[p].initial == 0
  {
    LastProcessRef(w, p);
    FreeProcess(w, p);
    ProcessTrimmed(w, p);
  }

  lemma ProcessTrimmed(w: World, p: nat)
    requires p in w.processes && !HasLinks(w.processes[p])
    ensures Trimmed(w, WithoutProcess(w, p), 0)
    ensures forall o: nat :: Alive(WithoutProcess(w, p), o) ==> Alive(w, o)
  {
  }

  lemma ThreadFreed(w: World, w': World, t: nat, unused: nat)
    requires Ok(w, unused) && t in w.refs && t in w.threads && w.threads[t].count == 1
    requires w' == WithoutThread(w, t)
    ensures Ok(w', unused) && Trimmed(w, w', 0) && !w.threads[t].inList && t != 0
    ensures w.threads[t].process != 0 ==> w.threads[t].process in w'.processes
  {
    LastThreadRef(w, t);
    assert ThreadOk(w, t);
    FreeThread(w, t);
    ThreadTrimmed(w, t);
  }

  lemma ThreadTrimmed(w: World, t: nat)
    requires t in w.threads
    ensures Trimmed(w, WithoutThread(w, t), 0)
    ensures forall o: nat :: Alive(WithoutThread(w, t), o) ==> Alive(w, o)
  {
  }

  /** The cells hold contexts of their CIDs. */
  lemma InCell(w: World, cid: nat)
    requires Inv(w) && cid in w.cells
    ensures Alive(w, w.cells[cid]) && Cid(w, w.cells[cid]) == cid && w.cells[cid] > 0
  {
  }

  lemma CellExchanged(w: World, w': World, cid: nat, o: nat, unused: nat)
    requires Ok(w, unused) && (o != 0 ==> o in w.refs && Cid(w, o) == cid) && w' == Exchanged(w, cid, o)
    ensures Ok(w', unused)
  {
    Exchange(w, cid, o);
  }

  lemma SwappedRefs(held: multiset<nat>, lost: multiset<nat>, o: nat, before: nat)
    requires o != 0 ==> o in held
    ensures Swapped(held, o, before) + lost == Swapped(held + lost, o, before)
  {
  }

  lemma SwappedLost(held: multiset<nat>, lost: multiset<nat>, o: nat, before: nat)
    requires o != 0 && o in held
    ensures held - multiset{o} + Swapped(lost, 0, before) == Swapped(held + lost, o, before)
  {
  }

  lemma SwappedBack(held: multiset<nat>, o: nat, before: nat)
    ensures Swapped(Swapped(Swapped(held, 0, o), o, before), before, 0) == held
  {
  }

  /** Whatever was trimmed, the cells may change in addition. */
  lemma TrimmedCells(w: World, w1: World, w2: World)
    requires Trimmed(w, w1, 0) && w2 == w1.(cells := w2.cells, refs := w2.refs)
    ensures Trimmed(w.(cells := w2.cells), w2, 0)
  {
  }

  /** One context is new, and without links; the others are as they were. */
  predicate Made(w: World, w': World, o: nat) {
    && !Alive(w, o) && Alive(w', o) && w'.cells == w.cells
    && w'.processes - {o} == w.processes && w'.threads - {o} == w.threads
    && (o in w'.processes ==> !HasLinks(w'.processes[o]))
  }

  lemma MadeTouched(w: World, w1: World, w2: World, o: nat)
    requires Made(w, w1, o) && Touched(w1, w2, o) && Trimmed(w1, w2, 0)
    ensures Made(w, w2, o)
  {
  }

  lemma TakenBack(held: multiset<nat>, o: nat)
    ensures held + multiset{o} - multiset{o} == held
  {
  }

  lemma Extended<V>(m: map<nat, V>, o: nat, v: V)
    requires o !in m
    ensures m[o := v] - {o} == m && m - {o} == m
  {
  }

  lemma ProcessMade(w: World, w': World, p: nat, cid: nat)
    requires Ok(w, p) && w' == WithProcess(w, p, cid)
    ensures Ok(w', p + 1) && Made(w, w', p)
  {
    assert !Alive(w, p);
    NewProcess(w, p, cid);
    Extended(w.processes, p, Process(cid, 1, [], 0, 0, 0));
    assert w.threads - {p} == w.threads;
    forall o: nat | Alive(w', o) ensures o < p + 1 {
      assert o == p || Alive(w, o);
    }
  }

  lemma ThreadMade(w: World, w': World, t: nat, cid: nat, p: nat)
    requires Ok(w, t) && (p != 0 ==> p in w.refs && p in w.processes) && w' == WithThread(w, t, cid, p)
    ensures Ok(w', t + 1) && Made(w, w', t)
  {
    assert !Alive(w, t);
    NewThread(w, t, cid, p);
    Extended(w.threads, t, Thread(cid, 1, false, p));
    assert w.processes - {t} == w.processes;
    forall o: nat | Alive(w', o) ensures o < t + 1 {
      assert o == t || Alive(w, o);
    }
  }

  lemma ThreadLinked(w: World, w': World, t: nat, unused: nat)
    requires Ok(w, unused) && t in w.threads && !w.threads[t].inList && w.threads[t].process in w.processes
    requires w' == Linked(w, t)
    ensures Ok(w', unused)
  {
    Link(w, t);
    assert w'.processes.Keys == w.processes.Keys && w'.threads.Keys == w.threads.Keys;
    SameContexts(w, w', unused);
  }

  lemma SystemSet(w: World, w': World, p: nat, unused: nat)
    requires Ok(w, unused) && (p != 0 ==> p in w.refs && p in w.processes) && w' == WithSystem(w, p)
    ensures Ok(w', unused)
  {
    SetSystem(w, p);
  }

  lemma Taken(held: multiset<nat>, lost: multiset<nat>, o: nat)
    requires o in held
    ensures held - multiset{o} + lost == held + lost - multiset{o}
  {
  }

  lemma Given(held: multiset<nat>, lost: multiset<nat>, o: nat)
    ensures held + multiset{o} + lost == held + lost + multiset{o}
  {
  }

  lemma Positive(w: World)
    requires Inv(w)
    ensures 0 !in w.processes && 0 !in w.threads
  {
  }

  /** A context is of one kind, and counted. */
  lemma Kinds(w: World, o: nat)
    requires Inv(w)
    ensures o in w.threads ==> o !in w.processes && w.threads[o].count > 0
    ensures o in w.processes ==> o !in w.threads && w.processes[o].count > 0
    ensures o in w.refs ==> Alive(w, o)
  {
  }

  lemma MadeAttached(w: World, w': World, o: nat)
    requires Made(w, w', o) && Attached(w) && Inv(w)
    ensures Attached(w')
  {
    forall p | p in w'.processes && HasLinks(w'.processes[p]) ensures Tabled(w', p) {
      assert p in w.processes && w'.processes[p] == w.processes[p];
    }
  }

  /** Threads are only linked with a process that was found in the table. */
  lemma LinkedAttached(w: World, w': World, t: nat)
    requires t in w.threads && w.threads[t].process in w.processes && w' == Linked(w, t)
    requires Attached(w) && Tabled(w, w.threads[t].process)
    ensures Attached(w')
  {
  }

  lemma MadeTabled(w: World, w': World, o: nat, p: nat)
    requires Made(w, w', o) && p in w.processes && Tabled(w, p)
    ensures p in w'.processes && Tabled(w', p)
  {
  }

  lemma SwappedOver(held: multiset<nat>, p: nat, t: nat)
    ensures Swapped(Swapped(held, 0, p), p, t) == Swapped(held, 0, t)
  {
  }

  lemma Forgotten(held: multiset<nat>, lost: multiset<nat>, o: nat)
    ensures held + multiset{o} + multiset{o} + lost == held + (lost + multiset{o} + multiset{o})
  {
  }

  lemma AssignedAttached(w: World, cid: nat, o: nat)
    requires Attached(w) && cid !in w.cells
    ensures Attached(w.(cells := w.cells[cid := o]))
  {
  }

  /** Links may go, but none are added. */
  predicate NoNewLinks(w: World, w': World) {
    && w'.processes.Keys <= w.processes.Keys
    && forall p :: p in w'.processes ==> FewerLinks(w.processes[p], w'.processes[p])
  }

  predicate FewerLinks(x: Process, x': Process) {
    x'.cid == x.cid && (HasLinks(x') ==> HasLinks(x))
  }

  lemma TrimmedAttached(w: World, w': World)
    requires Trimmed(w, w', 0) && Attached(w)
    ensures Attached(w')
  {
  }

  lemma NoNewTwice(w: World, w': World, w'': World)
    requires NoNewLinks(w, w') && NoNewLinks(w', w'')
    ensures NoNewLinks(w, w'')
  {
  }

  lemma EntryUnlisted(w: World, w': World, p: nat, i: nat, unlinked: nat, unused: nat)
    requires Ok(w, unused) && p in w.processes && i < |w.processes[p].list|
    requires w.processes[p].list[i] in w.threads && w.processes[p].number > 0
    requires w' == Unlisted(w, p, i, unlinked)
    ensures Ok(w', unused) && p != 0 && w.threads[w.processes[p].list[i]].process == p
  {
    Listed(w, p, i);
    Unlist(w, p, i, unlinked);
    SameContexts(w, w', unused);
  }

  lemma SameContexts(w: World, w': World, unused: nat)
    requires Ok(w, unused) && Inv(w') && w'.processes.Keys == w.processes.Keys && w'.threads.Keys == w.threads.Keys
    ensures Ok(w', unused)
  {
  }

  lemma UnlistedLinks(w: World, p: nat, i: nat, unlinked: nat)
    requires p in w.processes && i < |w.processes[p].list| && w.processes[p].number > 0 && p != 0
    requires w.processes[p].list[i] in w.threads && w.threads[w.processes[p].list[i]].process == p
    ensures NoNewLinks(w, Unlisted(w, p, i, unlinked)) && Trimmed(w, Unlisted(w, p, i, unlinked), p)
  {
  }

  lemma InitialCleared(w: World, w': World, p: nat, unused: nat)
    requires Ok(w, unused) && p in w.processes && w.processes[p].initial != 0 && w' == WithoutInitial(w, p)
    ensures Ok(w', unused) && p != 0
  {
    ClearInitial(w, p);
    assert ProcessOk(w, p);
    SameContexts(w, w', unused);
  }

  lemma ClearedLinks(w: World, p: nat)
    requires p in w.processes && p != 0
    ensures NoNewLinks(w, WithoutInitial(w, p)) && Trimmed(w, WithoutInitial(w, p), p)
  {
  }

  /** Links of the process p have been dropped, and whatever that freed. */
  ghost predicate Unlinking(w: World, w': World, p: nat) {
    NoNewLinks(w, w') && Trimmed(w, w', p)
  }

  lemma UnlinkingTwice(w: World, w': World, w'': World, p: nat)
    requires Unlinking(w, w', p) && Unlinking(w', w'', p)
    ensures Unlinking(w, w'', p)
  {
    NoNewTwice(w, w', w'');
    TrimmedTwice(w, w', w'', p);
  }

  lemma TrimmedUnlinking(w: World, w': World, p: nat)
    requires Trimmed(w, w', 0)
    ensures Unlinking(w, w', p)
  {
  }

  /** A process that someone holds survives whatever is dropped. */
  lemma HeldSurvives(w: World, w': World, p: nat)
    requires Inv(w) && Inv(w') && Trimmed(w, w', 0) && p in w.processes && p in w'.refs
    ensures p in w'.processes && SameList(w.processes[p], w'.processes[p])
  {
  }

  lemma HeldKind(w: World, w1: World, w2: World, o: nat)
    requires Inv(w1) && Inv(w2) && w == w1.(cells := w2.cells) && Trimmed(w, w2, 0) && o in w1.refs && o in w2.refs
    ensures o in w2.threads <==> o in w1.threads
    ensures o in w2.processes <==> o in w1.processes
  {
  }

  lemma ThreadSurvives(w: World, w': World, t: nat)
    requires Inv(w) && Inv(w') && Trimmed(w, w', 0) && t in w.threads && t in w'.refs
    ensures t in w'.threads
    ensures w'.threads[t].process == w.threads[t].process && w'.threads[t].inList == w.threads[t].inList
    ensures var p := w.threads[t].process; p != 0 ==> p in w'.processes && SameList(w.processes[p], w'.processes[p])
  {
  }

  /** The cell of a context is emptied, and nothing is linked with it any more. */
  lemma Detached(w: World, w1: World, w2: World, cid: nat, o: nat)
    requires Attached(w) && cid in w.cells && w.cells[cid] == o
    requires Trimmed(w.(cells := w.cells - {cid}), w1, 0) && NoNewLinks(w1, w2) && w2.cells == w1.cells
    requires o in w2.processes ==> !HasLinks(w2.processes[o])
    ensures Attached(w2)
  {
  }

  /** How far the rundown of the table has come since w0. */
  ghost predicate RunDown(w0: World, w: World) {
    && w.cells.Keys <= w0.cells.Keys && (forall cid :: cid in w.cells ==> w.cells[cid] == w0.cells[cid])
    && NoNewLinks(w0, w)
    && (forall p :: p in w.processes && HasLinks(w.processes[p]) ==> Tabled(w, p) || !Tabled(w0, p))
    && (forall p :: p in w0.processes && HasLinks(w0.processes[p]) && !Tabled(w0, p) ==> StillLinked(w, p))
  }

  predicate StillLinked(w: World, p: nat) {
    p in w.processes && HasLinks(w.processes[p])
  }

  /** What one turn of the rundown does: the context in a cell is taken out,
      unlinked if it is a process, and dropped. */
  ghost predicate Turn(w: World, w1: World, w2: World, cid: nat, o: nat) {
    && cid in w.cells && o == w.cells[cid]
    && w1.cells == w.cells - {cid} && w1.processes == w.processes && w1.threads == w.threads && w1.system == w.system
    && Unlinking(w1, w2, if o in w.processes then o else 0)
    && (o in w2.processes ==> !HasLinks(w2.processes[o]))
  }

  lemma LinksLeft(w0: World, w: World, w1: World, w2: World, cid: nat, o: nat, p: nat)
    requires RunDown(w0, w) && Turn(w, w1, w2, cid, o) && p in w2.processes && HasLinks(w2.processes[p])
    ensures Tabled(w2, p) || !Tabled(w0, p)
  {
  }

  lemma LinksStay(w0: World, w: World, w1: World, w2: World, cid: nat, o: nat, p: nat)
    requires RunDown(w0, w) && Turn(w, w1, w2, cid, o) && Cid(w, o) == cid && (o in w.processes ==> o !in w.threads)
    requires p in w0.processes && HasLinks(w0.processes[p]) && !Tabled(w0, p)
    ensures StillLinked(w2, p)
  {
  }

  lemma TurnRunDown(w0: World, w: World, w1: World, w2: World, cid: nat, o: nat)
    requires Inv(w) && RunDown(w0, w) && Turn(w, w1, w2, cid, o)
    ensures RunDown(w0, w2)
  {
    InCell(w, cid);
    Kinds(w, o);
    forall p | p in w2.processes && HasLinks(w2.processes[p]) ensures Tabled(w2, p) || !Tabled(w0, p) {
      LinksLeft(w0, w, w1, w2, cid, o, p);
    }
    forall p | p in w0.processes && HasLinks(w0.processes[p]) && !Tabled(w0, p) ensures StillLinked(w2, p) {
      LinksStay(w0, w, w1, w2, cid, o, p);
    }
    NoNewTwice(w0, w1, w2);
  }

  lemma DropAfter(w1: World, w2: World, w3: World, o: nat)
    requires Unlinking(w1, w2, if o in w1.processes then o else 0) && Trimmed(w2, w3, 0)
    requires o in w2.processes ==> !HasLinks(w2.processes[o])
    ensures Unlinking(w1, w3, if o in w1.processes then o else 0)
    ensures o in w3.processes ==> !HasLinks(w3.processes[o])
  {
    var p := if o in w1.processes then o else 0;
    TrimmedUnlinking(w2, w3, p);
    UnlinkingTwice(w1, w2, w3, p);
    if o in w3.processes {
      assert SameList(w2.processes[o], w3.processes[o]);
    }
  }

  lemma TrimmedRefs(w: World, w1: World, w2: World)
    requires w == w1.(refs := w.refs) && Trimmed(w1, w2, 0)
    ensures Trimmed(w, w2, 0)
  {
  }

  lemma RunDownStart(w: World)
    ensures RunDown(w, w)
  {
  }

  lemma DropRunDown(w0: World, w: World, w': World)
    requires RunDown(w0, w) && w.cells == map[] && w'.cells == map[]
    requires Trimmed(w.(system := w'.system), w', 0)
    ensures RunDown(w0, w')
  {
  }

  /** The process that the cell of a CID leads to, if any. */
  function TrackedProcess(w: World, pid: nat): nat {
    if pid in w.cells && w.cells[pid] !in w.threads then w.cells[pid] else 0
  }

  /** A thread that is linked with its process, if it has one. */
  predicate LinkedWith(x: Thread, p: nat) {
    x.process == p && (p != 0 ==> x.inList)
  }

  predicate ThreadAdded(before: Process, after: Process, t: nat) {
    && after.list == before.list + [t] && after.number == before.number + 1
    && after.initial == (if before.initial == 0 then t else before.initial) && after.cid == before.cid
  }

  /** The system process is the new context, if that is what was created. */
  function SystemAfter(system: nat, kind: Kind, isSystem: bool, o: nat): nat {
    if kind.OfProcess? && isSystem && o != 0 then o else system
  }

  lemma FoundProcess(w: World, w': World, pid: nat, p: nat)
    requires Inv(w) && Inv(w') && Trimmed(w, w', 0)
    requires p != 0 ==> pid in w.cells && p == w.cells[pid] && p in w'.processes
    requires p == 0 ==> pid in w.cells ==> w.cells[pid] in w.threads
    ensures p == TrackedProcess(w, pid)
  {
    Kinds(w, p);
  }

  /** Without cells, links, slots and other references nothing is left. */
  lemma NothingLeft(w: World)
    requires Inv(w) && w.cells == map[] && w.system == 0 && w.refs == multiset{}
    requires forall p :: p in w.processes ==> !HasLinks(w.processes[p])
    ensures w.threads == map[] && w.processes == map[]
  {
  }

  lemma NoLinks(w0: World, w: World)
    requires RunDown(w0, w) && w.cells == map[] && Attached(w0)
    ensures forall p :: p in w.processes ==> !HasLinks(w.processes[p])
  {
  }

  /** After a rundown everything is freed, unless references were held or lost, or
      a process outside of the table was linked with threads. */
  lemma RunDownFrees(w0: World, w: World)
    requires Inv(w) && RunDown(w0, w) && w.cells == map[] && w.system == 0 && w.refs == w0.refs
    ensures (w.threads == map[] && w.processes == map[]) <==> Attached(w0) && w0.refs == multiset{}
  {
    if Attached(w0) && w0.refs == multiset{} {
      NoLinks(w0, w);
      NothingLeft(w);
    }
    if !Attached(w0) {
      var p :| p in w0.processes && HasLinks(w0.processes[p]) && !Tabled(w0, p);
      assert StillLinked(w, p);
    }
    if o :| o in w.refs {
      assert Alive(w, o);
    }
  }

  class Tracking {
    var cells: map<nat, nat>
    var processes: map<nat, Process>
    var threads: map<nat, Thread>
    var system: nat
    var unused: nat
    ghost var held: multiset<nat>
    ghost var lost: multiset<nat>

    ghost function W(): World
      reads this
    {
      World(cells, processes, threads, system, held + lost)
    }

    ghost predicate Valid()
      reads this
    {
      Ok(W(), unused)
    }

    constructor ()
      ensures Valid() && processes == map[] && threads == map[] && held == lost == multiset{} && Attached(W())
    {
      cells, processes, threads, system, unused := map[], map[], map[], 0, 1;
      held, lost := multiset{}, multiset{};
    }

    /** KphReferenceObject, for a new holder. */
    method Reference(o: nat)
      requires Valid() && Alive(W(), o)
      modifies this`processes, this`threads, this`held
      ensures Valid() && held == old(held) + multiset{o} && Trimmed(old(W()), W(), 0)
      ensures Touched(old(W()), W(), o)
    {
      ghost var w := W();
      if o in threads {
        threads := threads[o := threads[o].(count := threads[o].count + 1)];
      } else {
        processes := processes[o := processes[o].(count := processes[o].count + 1)];
      }
      Given(held, lost, o);
      held := held + multiset{o};
      Referenced(w, W(), o, unused);
    }

    /** KphDereferenceObject, whose count is more than one. */
    method Decrement(o: nat)
      requires Valid() && o in held && CountOf(W(), o) > 1
      modifies this`processes, this`threads, this`held
      ensures Valid() && held == old(held) - multiset{o} && Trimmed(old(W()), W(), 0)
      ensures processes.Keys == old(processes.Keys) && threads.Keys == old(threads.Keys)
    {
      ghost var w := W();
      Kinds(w, o);
      StoreDecrement(o);
      Dereferenced(w, W(), o, unused);
    }

    method StoreDecrement(o: nat)
      requires o in held && CountOf(W(), o) > 1 && (o in threads <==> o !in processes)
      modifies this`processes, this`threads, this`held
      ensures held == old(held) - multiset{o}
      ensures old(CountOf(W(), o) > 1 && (o in threads <==> o !in processes))
      ensures W() == Counted(old(W()), o, -1).(refs := old(W()).refs - multiset{o})
    {
      if o in threads {
        threads := threads[o := threads[o].(count := threads[o].count - 1)];
      } else {
        processes := processes[o := processes[o].(count := processes[o].count - 1)];
      }
      Taken(held, lost, o);
      held := held - multiset{o};
    }

    /** KphDereferenceObject of a process context, with its delete procedure. */
    method DropProcess(p: nat)
      requires Valid() && p in held && p in processes
      modifies this`processes, this`threads, this`held
      ensures Valid() && held == old(held) - multiset{p} && Trimmed(old(W()), W(), 0)
      ensures threads.Keys == old(threads.Keys)
    {
      ghost var w := W();
      Kinds(w, p);
      if processes[p].count > 1 {
        Decrement(p);
      } else {
        assert processes[p].list == [] && processes[p].number == 0 by {
          ProcessFreed(w, WithoutProcess(w, p), p, unused);
        }
        processes := processes - {p};
        Taken(held, lost, p);
        held := held - multiset{p};
        ProcessFreed(w, W(), p, unused);
      }
    }

    method FreeThreadContext(t: nat) returns (p: nat)
      requires t in held && t in threads
      modifies this`threads, this`held
      ensures old(t in threads) && p == old(threads[t].process)
      ensures held == Swapped(old(held), t, p) || t == 0
      ensures t != 0 ==> W() == WithoutThread(old(W()), t)
    {
      p := threads[t].process;
      threads := threads - {t};
      if t != 0 {
        SwappedRefs(held, lost, t, p);
      }
      held := Swapped(held, t, p);
    }

    /** KphpDeleteThreadContext; the reference to its process is left to drop. */
    method DeleteThread(t: nat) returns (p: nat)
      requires Valid() && t in held && t in threads && threads[t].count == 1
      modifies this`threads, this`held
      ensures Valid() && Trimmed(old(W()), W(), 0) && (p != 0 ==> p in held && p in processes)
      ensures held == Swapped(old(held), t, p) && t != 0
    {
      ghost var w := W();
      ThreadFreed(w, WithoutThread(w, t), t, unused);
      assert !threads[t].inList;
      p := FreeThreadContext(t);
    }

    /** KphDereferenceObject of a thread context. */
    method DropThread(t: nat)
      requires Valid() && t in held && t in threads
      modifies this`processes, this`threads, this`held
      ensures Valid() && held == old(held) - multiset{t} && Trimmed(old(W()), W(), 0)
    {
      ghost var w := W();
      Kinds(w, t);
      if threads[t].count > 1 {
        Decrement(t);
        return;
      }
      var p := DeleteThread(t);
      if p != 0 {
        ghost var w1 := W();
        DropProcess(p);
        TrimmedTwice(w, w1, W(), 0);
      }
    }

    /** KphDereferenceObject. */
    method Drop(o: nat)
      requires Valid() && o in held
      modifies this`processes, this`threads, this`held
      ensures Valid() && held == old(held) - multiset{o} && Trimmed(old(W()), W(), 0)
    {
      Kinds(W(), o);
      if o in threads {
        DropThread(o);
      } else {
        DropProcess(o);
      }
    }

    /** KphpLookupContext. */
    method Lookup(cid: nat, kind: Kind) returns (o: nat)
      requires Valid()
      modifies this`processes, this`threads, this`held
      ensures Valid() && Trimmed(old(W()), W(), 0)
      ensures o != 0 ==>
        && held == old(held) + multiset{o} && cid in cells && o == cells[cid]
        && (if kind.OfThread? then o in threads else o in processes)
      ensures o == 0 ==> held == old(held) && (cid in cells ==> kind.OfThread? != old(cells[cid] in threads))
    {
      ghost var w := W();
      if cid !in cells {
        return 0;
      }
      InCell(w, cid);
      o := cells[cid];
      Reference(o);
      ghost var w1 := W();
      if (kind == OfThread) != (o in threads) {
        Drop(o);
        TrimmedTwice(w, w1, W(), 0);
        o := 0;
      }
    }

    method StoreCell(cid: nat, o: nat) returns (before: nat)
      requires o != 0 ==> o in held
      modifies this`cells, this`held
      ensures before == if cid in old(cells) then old(cells)[cid] else 0
      ensures held == Swapped(old(held), o, before) && W() == Exchanged(old(W()), cid, o)
    {
      before := if cid in cells then cells[cid] else 0;
      cells := if o == 0 then cells - {cid} else cells[cid := o];
      SwappedRefs(held, lost, o, before);
      held := Swapped(held, o, before);
    }

    /** The exchange at the heart of KphCidAssignObject and KphAtomicMoveObjectReference:
        a held reference goes into the cell, and the one that was there comes out. */
    method Swap(cid: nat, o: nat) returns (before: nat)
      requires Valid() && (o != 0 ==> o in held && Cid(W(), o) == cid)
      modifies this`cells, this`held
      ensures Valid() && held == Swapped(old(held), o, before)
      ensures before == if cid in old(cells) then old(cells)[cid] else 0
      ensures before != 0 ==> before in held
      ensures cells == if o == 0 then old(cells) - {cid} else old(cells)[cid := o]
    {
      ghost var w := W();
      before := StoreCell(cid, o);
      CellExchanged(w, W(), cid, o, unused);
      if before != 0 {
        InCell(w, cid);
      }
    }

    method Acquire(o: nat)
      requires Valid() && (o != 0 ==> o in held)
      modifies this`processes, this`threads, this`held
      ensures Valid() && held == Swapped(old(held), 0, o) && Trimmed(old(W()), W(), 0)
      ensures (o != 0 ==> o in held) && Cid(W(), o) == old(Cid(W(), o))
    {
      if o != 0 {
        Kinds(W(), o);
        Reference(o);
      }
    }

    method Release(o: nat)
      requires Valid() && (o != 0 ==> o in held)
      modifies this`processes, this`threads, this`held
      ensures Valid() && held == Swapped(old(held), o, 0) && Trimmed(old(W()), W(), 0)
    {
      if o != 0 {
        Drop(o);
      }
    }

    /** KphCidAssignObject. */
    method Assign(cid: nat, o: nat)
      requires Valid() && (o != 0 ==> o in held && Cid(W(), o) == cid)
      modifies this`cells, this`processes, this`threads, this`held
      ensures Valid() && held == old(held)
      ensures cells == if o == 0 then old(cells) - {cid} else old(cells)[cid := o]
      ensures Trimmed(old(W()).(cells := cells), W(), 0)
    {
      ghost var w := W();
      Acquire(o);
      ghost var w1 := W();
      var before := Swap(cid, o);
      ghost var w2 := W();
      TrimmedCells(w, w1, w2);
      Release(before);
      SwappedBack(old(held), o, before);
      TrimmedTwice(w.(cells := cells), w2, W(), 0);
    }

    /** KphpSystemProcessContext takes over a reference; a second system process
        would replace the first, whose reference would then be lost. */
    method SetSystemProcess(p: nat)
      requires Valid() && p in held && p in processes
      modifies this`system, this`held, this`lost
      ensures Valid() && system == p && held == old(held) - multiset{p}
      ensures lost == if old(system) == 0 then old(lost) else old(lost) + multiset{old(system)}
    {
      ghost var w := W();
      assert p > 0 by {
        assert ProcessOk(w, p);
      }
      StoreSystem(p);
      SystemSet(w, W(), p, unused);
    }

    method StoreSystem(p: nat)
      requires p > 0 && p in held
      modifies this`system, this`held, this`lost
      ensures system == p && held == old(held) - multiset{p}
      ensures lost == Swapped(old(lost), 0, old(system)) && W() == WithSystem(old(W()), p)
    {
      SwappedLost(held, lost, p, system);
      held := held - multiset{p};
      lost := Swapped(lost, 0, system);
      system := p;
    }

    /** KphCreateObject and KphpInitializeProcessContext, but for the system process. */
    method BeginProcess(cid: nat) returns (p: nat)
      requires Valid()
      modifies this`processes, this`held, this`unused
      ensures Valid() && Made(old(W()), W(), p) && p == old(unused) && p in processes && processes[p].cid == cid
      ensures held == old(held) + multiset{p}
    {
      ghost var w := W();
      p := unused;
      processes := processes[p := Process(cid, 1, [], 0, 0, 0)];
      unused := unused + 1;
      Given(held, lost, p);
      held := held + multiset{p};
      ProcessMade(w, W(), p, cid);
    }

    method RegisterSystem(p: nat, ghost w: World)
      requires Valid() && Made(w, W(), p) && p in processes && p in held
      modifies this`processes, this`threads, this`held, this`lost, this`system
      ensures Valid() && Made(w, W(), p) && p in processes && processes[p].cid == old(processes[p].cid)
      ensures held == old(held) && cells == old(cells) && system == p
      ensures lost == if old(system) == 0 then old(lost) else old(lost) + multiset{old(system)}
    {
      ghost var w1 := W();
      Reference(p);
      MadeTouched(w, w1, W(), p);
      TakenBack(old(held), p);
      SetSystemProcess(p);
    }

    /** KphCreateObject for a process; `fails` if its memory cannot be allocated. */
    method CreateProcess(cid: nat, isSystem: bool, fails: bool) returns (p: nat)
      requires Valid()
      modifies this
      ensures Valid() && cells == old(cells) && (p == 0 <==> fails)
      ensures p == 0 ==> W() == old(W()) && held == old(held) && lost == old(lost)
      ensures system == SystemAfter(old(system), OfProcess, isSystem, p)
      ensures p != 0 ==>
        && Made(old(W()), W(), p) && p == old(unused) && p in processes && processes[p].cid == cid
        && held == old(held) + multiset{p}
        && lost == if isSystem && old(system) != 0 then old(lost) + multiset{old(system)} else old(lost)
    {
      if fails {
        return 0;
      }
      p := BeginProcess(cid);
      if isSystem {
        RegisterSystem(p, old(W()));
      }
    }

    /** The part of KphpInitializeThreadContext before the thread list lock. */
    method BeginThread(cid: nat, p: nat) returns (t: nat)
      requires Valid() && (p != 0 ==> p in held && p in processes)
      modifies this`threads, this`held, this`unused
      ensures Valid() && Made(old(W()), W(), t) && t == old(unused)
      ensures t in threads && threads[t] == Thread(cid, 1, false, p)
      ensures held == Swapped(old(held), p, t)
    {
      ghost var w := W();
      t := unused;
      threads := threads[t := Thread(cid, 1, false, p)];
      unused := unused + 1;
      SwappedRefs(held, lost, p, t);
      held := Swapped(held, p, t);
      ThreadMade(w, W(), t, cid, p);
    }

    /** And the part under that lock: the thread becomes the last one of its process, and
        the initial one if there is none. */
    method LinkThread(t: nat)
      requires Valid() && t in threads && !threads[t].inList && threads[t].process in processes
      modifies this`threads, this`processes
      ensures Valid() && W() == Linked(old(W()), t)
      ensures threads[t].inList && threads[t].process == old(threads[t].process) && threads[t].process in processes
      ensures ThreadAdded(old(processes[threads[t].process]), processes[threads[t].process], t)
    {
      ThreadLinked(W(), Linked(W(), t), t, unused);
      StoreLink(t);
    }

    method StoreLink(t: nat)
      requires t in threads && threads[t].process in processes
      modifies this`threads, this`processes
      ensures old(t in threads && threads[t].process in processes) && W() == Linked(old(W()), t)
    {
      var p := threads[t].process;
      var x := processes[p];
      var first := x.initial == 0;
      processes := processes[p := x.(list := x.list + [t], number := x.number + 1,
                                     initial := if first then t else x.initial)];
      threads := threads[t := threads[t].(inList := true, count := threads[t].count + if first then 2 else 1)];
    }

    /** KphGetProcessContext. */
    method FindProcess(pid: nat) returns (p: nat)
      requires Valid()
      modifies this`processes, this`threads, this`held
      ensures Valid() && (old(Attached(W())) ==> Attached(W()))
      ensures held == Swapped(old(held), 0, p)
      ensures p != 0 ==> p in held && p in processes && Tabled(W(), p)
      ensures p == old(TrackedProcess(W(), pid)) && cells == old(cells)
    {
      ghost var w := W();
      p := Lookup(pid, OfProcess);
      FoundProcess(w, W(), pid, p);
      if Attached(old(W())) {
        TrimmedAttached(old(W()), W());
      }
      if p != 0 {
        InCell(W(), pid);
        Kinds(W(), p);
      }
    }

    /** Linking a thread with a process that is in the table. */
    method AttachThread(t: nat)
      requires Valid() && t in threads && !threads[t].inList
      requires threads[t].process in processes && Tabled(W(), threads[t].process)
      modifies this`threads, this`processes
      ensures Valid() && (old(Attached(W())) ==> Attached(W())) && t in threads && threads[t].cid == old(threads[t].cid)
      ensures threads[t].inList && threads[t].process == old(threads[t].process)
    {
      LinkThread(t);
      if Attached(old(W())) {
        LinkedAttached(old(W()), W(), t);
      }
    }

    /** KphpInitializeThreadContext, given the process that was found, if any. */
    method InitializeThread(cid: nat, p: nat) returns (t: nat)
      requires Valid() && (p != 0 ==> p in held && p in processes && Tabled(W(), p))
      modifies this
      ensures Valid() && (old(Attached(W())) ==> Attached(W())) && cells == old(cells) && lost == old(lost)
      ensures held == Swapped(old(held), p, t)
      ensures t == old(unused) && t in threads && threads[t].cid == cid
      ensures LinkedWith(threads[t], p) && system == old(system)
    {
      t := BeginThread(cid, p);
      if Attached(old(W())) {
        MadeAttached(old(W()), W(), t);
      }
      if p != 0 {
        MadeTabled(old(W()), W(), t, p);
        AttachThread(t);
      }
    }

    /** KphCreateObject and KphpInitializeThreadContext for a thread of process pid. */
    method CreateThread(cid: nat, pid: nat, fails: bool) returns (t: nat)
      requires Valid()
      modifies this
      ensures Valid() && (old(Attached(W())) ==> Attached(W())) && cells == old(cells) && lost == old(lost)
      ensures held == Swapped(old(held), 0, t) && (t == 0 <==> fails)
      ensures t != 0 ==> t == old(unused) && t in threads && threads[t].cid == cid
      ensures t != 0 ==> LinkedWith(threads[t], old(TrackedProcess(W(), pid)))
      ensures system == old(system)
    {
      if fails {
        return 0;
      }
      var p := FindProcess(pid);
      t := InitializeThread(cid, p);
      SwappedOver(old(held), p, t);
    }

    /** Holders lose sight of references. */
    ghost method Forget(held': multiset<nat>, lost': multiset<nat>)
      requires held' + lost' == held + lost
      modifies this`held, this`lost
      ensures held == held' && lost == lost' && W() == old(W())
    {
      held, lost := held', lost';
    }

    /** KphCreateObject for either kind of context. */
    method Create(cid: nat, kind: Kind, pid: nat, isSystem: bool, fails: bool) returns (o: nat)
      requires Valid()
      modifies this
      ensures Valid() && (old(Attached(W())) ==> Attached(W())) && (o == 0 <==> fails)
      ensures cells == old(cells) && held == Swapped(old(held), 0, o)
      ensures o != 0 ==> o >= old(unused) && o in held && Cid(W(), o) == cid
      ensures o != 0 ==> if kind.OfThread? then o in threads else o in processes
      ensures system == SystemAfter(old(system), kind, isSystem, o)
      ensures o != 0 && kind.OfThread? ==> LinkedWith(threads[o], old(TrackedProcess(W(), pid)))
      ensures lost == if kind.OfProcess? && isSystem && o != 0 then Swapped(old(lost), 0, old(system)) else old(lost)
    {
      if kind == OfThread {
        o := CreateThread(cid, pid, fails);
      } else {
        o := CreateProcess(cid, isSystem, fails);
        if o != 0 && Attached(old(W())) {
          MadeAttached(old(W()), W(), o);
        }
      }
      Kinds(W(), o);
    }

    /** Two references that no one drops: the documented result of an existing
        context of the right type would have been that context. */
    method TrackExisting(o: nat, kind: Kind) returns (r: nat)
      requires Valid() && Alive(W(), o)
      modifies this`processes, this`threads, this`held, this`lost
      ensures Valid() && (old(Attached(W())) ==> Attached(W()))
      ensures if (kind == OfThread) == old(o in threads)
              then r == 0 && held == old(held) && lost == old(lost) + multiset{o} + multiset{o}
              else r == o && held == old(held) + multiset{o} && lost == old(lost)
    {
      Reference(o);
      ghost var w := W();
      if Attached(old(W())) {
        TrimmedAttached(old(W()), w);
      }
      if (kind == OfThread) != (o in threads) {
        return o;
      }
      Reference(o);
      if Attached(w) {
        TrimmedAttached(w, W());
      }
      Forgotten(old(held), lost, o);
      Forget(old(held), lost + multiset{o} + multiset{o});
      r := 0;
    }

    /** KphpTrackContext.  A context of the right type that was already there is
        not returned but referenced twice, and one of the wrong type is returned.
        A context that was not there is created, unless the table is `full` or the
        creation `fails`. */
    method Track(cid: nat, kind: Kind, pid: nat, isSystem: bool, full: bool, fails: bool) returns (o: nat)
      requires Valid()
      modifies this
      ensures Valid() && (old(Attached(W())) ==> Attached(W()))
      ensures cid in old(cells) ==>
        && cells == old(cells)
        && (if (kind == OfThread) == old(cells[cid] in threads)
            then o == 0 && held == old(held) && lost == old(lost) + multiset{cells[cid], cells[cid]}
            else o == cells[cid] && held == old(held) + multiset{o} && lost == old(lost))
      ensures cid !in old(cells) ==>
        && (o == 0 <==> full || fails)
        && held == Swapped(old(held), 0, o)
        && cells == (if o == 0 then old(cells) else old(cells)[cid := o])
        && (o != 0 ==> o >= old(unused) && if kind.OfThread? then o in threads else o in processes)
        && system == SystemAfter(old(system), kind, isSystem, o)
        && (o != 0 && kind.OfThread? ==> LinkedWith(threads[o], old(TrackedProcess(W(), pid))))
        && lost == if kind.OfProcess? && isSystem && o != 0 then Swapped(old(lost), 0, old(system)) else old(lost)
    {
      if cid in cells {
        o := TrackKnown(cid, kind);
        return;
      }
      if full {
        return 0;
      }
      o := TrackNew(cid, kind, pid, isSystem, fails);
    }

    method TrackKnown(cid: nat, kind: Kind) returns (o: nat)
      requires Valid() && cid in cells
      modifies this`processes, this`threads, this`held, this`lost
      ensures Valid() && (old(Attached(W())) ==> Attached(W()))
      ensures if (kind == OfThread) == old(cells[cid] in threads)
              then o == 0 && held == old(held) && lost == old(lost) + multiset{cells[cid], cells[cid]}
              else o == cells[cid] && held == old(held) + multiset{o} && lost == old(lost)
    {
      InCell(W(), cid);
      o := TrackExisting(cells[cid], kind);
      assert multiset{cells[cid]} + multiset{cells[cid]} == multiset{cells[cid], cells[cid]};
    }

    method TrackNew(cid: nat, kind: Kind, pid: nat, isSystem: bool, fails: bool) returns (o: nat)
      requires Valid() && cid !in cells
      modifies this
      ensures o == 0 <==> fails
      ensures Valid() && (old(Attached(W())) ==> Attached(W())) && held == Swapped(old(held), 0, o)
      ensures cells == if o == 0 then old(cells) else old(cells)[cid := o]
      ensures o != 0 ==> o >= old(unused)
      ensures o != 0 ==> if kind.OfThread? then o in threads else o in processes
      ensures system == SystemAfter(old(system), kind, isSystem, o)
      ensures o != 0 && kind.OfThread? ==> LinkedWith(threads[o], old(TrackedProcess(W(), pid)))
      ensures lost == if kind.OfProcess? && isSystem && o != 0 then Swapped(old(lost), 0, old(system)) else old(lost)
    {
      o := Create(cid, kind, pid, isSystem, fails);
      if o == 0 {
        return;
      }
      ghost var w1 := W();
      Assign(cid, o);
      assert w1.(cells := cells) == w1.(cells := w1.cells[cid := o]);
      HeldKind(w1.(cells := cells), w1, W(), o);
      if Attached(w1) {
        AssignedAttached(w1, cid, o);
        TrimmedAttached(w1.(cells := cells), W());
      }
    }

    method RemoveAt(p: nat, i: nat, t: nat, unlinked: nat)
      requires p in processes && i < |processes[p].list| && t == processes[p].list[i]
      requires t in threads && processes[p].number > 0
      modifies this`processes, this`threads, this`held
      ensures old(p in processes && i < |processes[p].list| && t in threads && processes[p].number > 0)
      ensures held == old(held) + multiset{t} && W() == Unlisted(old(W()), p, i, unlinked)
    {
      var x := processes[p];
      threads := threads[t := threads[t].(inList := false)];
      processes := processes[p := x.(list := Without(x.list, i), number := x.number - 1,
                                     unlinked := x.unlinked + unlinked)];
      Given(held, lost, t);
      held := held + multiset{t};
    }

    /** One entry leaves the thread list of a process; its reference is held. */
    method RemoveEntry(p: nat, i: nat, unlinked: nat) returns (t: nat)
      requires Valid() && p in processes && i < |processes[p].list|
      modifies this`processes, this`threads, this`held
      ensures Valid() && t == old(processes[p].list[i]) && held == old(held) + multiset{t}
      ensures old(t in threads && threads[t].process == p != 0 && processes[p].number > 0)
      ensures W() == Unlisted(old(W()), p, i, unlinked)
    {
      ghost var w := W();
      Listed(w, p, i);
      t := processes[p].list[i];
      RemoveAt(p, i, t, unlinked);
      EntryUnlisted(w, W(), p, i, unlinked, unused);
    }

    /** The initial thread slot of a process is emptied; its reference is held. */
    method TakeInitial(p: nat) returns (t: nat)
      requires Valid() && p in processes && processes[p].initial != 0
      modifies this`processes, this`held
      ensures Valid() && t == old(processes[p].initial) && held == old(held) + multiset{t} && p != 0
      ensures W() == WithoutInitial(old(W()), p)
    {
      ghost var w := W();
      t := processes[p].initial;
      processes := processes[p := processes[p].(initial := 0)];
      Given(held, lost, t);
      held := held + multiset{t};
      InitialCleared(w, W(), p, unused);
    }

    /** An entry of the thread list goes with its reference. */
    method DropEntry(p: nat, i: nat, unlinked: nat)
      requires Valid() && p in held && p in processes && i < |processes[p].list|
      modifies this`processes, this`threads, this`held
      ensures Valid() && held == old(held) && Unlinking(old(W()), W(), p)
      ensures p in processes && processes[p].list == Without(old(processes[p].list), i)
      ensures processes[p].initial == old(processes[p].initial)
      ensures processes[p].unlinked == old(processes[p].unlinked) + unlinked
    {
      ghost var w := W();
      var t := RemoveEntry(p, i, unlinked);
      UnlistedLinks(w, p, i, unlinked);
      ghost var w1 := W();
      Drop(t);
      TakenBack(old(held), t);
      HeldSurvives(w1, W(), p);
      TrimmedUnlinking(w1, W(), p);
      UnlinkingTwice(w, w1, W(), p);
    }

    method DropInitial(p: nat)
      requires Valid() && p in held && p in processes && processes[p].initial != 0
      modifies this`processes, this`threads, this`held
      ensures Valid() && held == old(held) && Unlinking(old(W()), W(), p)
      ensures p in processes && SameList(old(processes[p]).(initial := 0), processes[p])
    {
      ghost var w := W();
      var t := TakeInitial(p);
      ClearedLinks(w, p);
      ghost var w1 := W();
      Drop(t);
      TakenBack(old(held), t);
      HeldSurvives(w1, W(), p);
      TrimmedUnlinking(w1, W(), p);
      UnlinkingTwice(w, w1, W(), p);
    }

    /** KphpUnlinkProcessContextThreadContexts. */
    method Unlink(p: nat)
      requires Valid() && p in held && p in processes
      modifies this`processes, this`threads, this`held
      ensures Valid() && held == old(held) && Unlinking(old(W()), W(), p)
      ensures p in processes && !HasLinks(processes[p])
      ensures processes[p].unlinked == old(processes[p].unlinked + |processes[p].list|)
    {
      TrimmedUnlinking(W(), W(), p);
      while processes[p].list != []
        invariant Valid() && held == old(held) && p in processes && Unlinking(old(W()), W(), p)
        invariant processes[p].unlinked + |processes[p].list| == old(processes[p].unlinked + |processes[p].list|)
        decreases |processes[p].list|
      {
        ghost var w := W();
        DropEntry(p, 0, 1);
        UnlinkingTwice(old(W()), w, W(), p);
      }
      if processes[p].initial != 0 {
        ghost var w := W();
        DropInitial(p);
        UnlinkingTwice(old(W()), w, W(), p);
      }
    }

    /** KphpUntrackContext. */
    method UntrackContext(cid: nat, kind: Kind) returns (o: nat)
      requires Valid()
      modifies this`cells, this`processes, this`threads, this`held
      ensures Valid() && held == Swapped(old(held), 0, o)
      ensures Trimmed(old(W()).(cells := cells), W(), 0)
      ensures o == 0 ==> cells == old(cells)
      ensures o != 0 ==>
        && cid in old(cells) && o == old(cells[cid]) && cells == old(cells) - {cid}
        && o in held && (if kind.OfThread? then o in threads else o in processes)
      ensures o == 0 ==> cid in cells ==> kind.OfThread? != old(cells[cid] in threads)
    {
      o := Lookup(cid, kind);
      if o == 0 {
        assert old(W()).(cells := cells) == old(W());
        return;
      }
      ghost var w1 := W();
      Assign(cid, 0);
      TrimmedCells(old(W()), w1, w1.(cells := cells));
      TrimmedTwice(old(W()).(cells := cells), w1.(cells := cells), W(), 0);
      HeldKind(w1.(cells := cells), w1, W(), o);
    }

    /** KphUntrackProcessContext; the caller gets a reference. */
    method UntrackProcess(cid: nat) returns (p: nat)
      requires Valid()
      modifies this`cells, this`processes, this`threads, this`held
      ensures Valid() && (old(Attached(W())) ==> Attached(W())) && held == Swapped(old(held), 0, p)
      ensures p != 0 ==>
        && cid in old(cells) && p == old(cells[cid]) && cells == old(cells) - {cid}
        && p in processes && processes[p].list == [] && processes[p].number == 0 && processes[p].initial == 0
      ensures p == 0 ==> cells == old(cells) && (cid in cells ==> old(cells[cid] in threads))
    {
      p := UntrackContext(cid, OfProcess);
      ghost var w1 := W();
      if p == 0 {
        assert old(W()).(cells := cells) == old(W());
        if Attached(old(W())) {
          TrimmedAttached(old(W()), w1);
        }
        return;
      }
      Unlink(p);
      if Attached(old(W())) {
        Detached(old(W()), w1, W(), cid, p);
      }
      assert ProcessOk(W(), p);
    }

    /** The part of KphUntrackThreadContext under the thread list lock: the thread
        leaves the list of its process, if process unlinking was not faster. */
    method Unlist(t: nat)
      requires Valid() && t in held && t in threads && threads[t].process != 0
      modifies this`processes, this`threads, this`held
      ensures Valid() && held == old(held) && Unlinking(old(W()), W(), old(threads[t].process))
      ensures t in threads && !threads[t].inList && threads[t].process == old(threads[t].process)
      ensures threads[t].process in processes
      ensures old(threads[t].process in processes)
      ensures processes[threads[t].process].initial == old(processes[threads[t].process].initial)
    {
      ghost var w := W();
      assert ThreadOk(w, t);
      var p := threads[t].process;
      if !threads[t].inList {
        TrimmedUnlinking(w, w, p);
        return;
      }
      var i :| 0 <= i < |processes[p].list| && processes[p].list[i] == t;
      var t1 := RemoveEntry(p, i, 0);
      UnlistedLinks(w, p, i, 0);
      ghost var w1 := W();
      Drop(t);
      TakenBack(old(held), t);
      ThreadSurvives(w1, W(), t);
      TrimmedUnlinking(w1, W(), p);
      UnlinkingTwice(w, w1, W(), p);
    }

    /** And its initial thread slot, if it is that thread. */
    method Dethrone(t: nat)
      requires Valid() && t in held && t in threads && threads[t].process in processes
      modifies this`processes, this`threads, this`held
      ensures Valid() && held == old(held) && Unlinking(old(W()), W(), old(threads[t].process))
      ensures t in threads
      ensures threads[t].process == old(threads[t].process) && threads[t].inList == old(threads[t].inList)
      ensures threads[t].process in processes && processes[threads[t].process].initial != t
    {
      ghost var w := W();
      assert ThreadOk(w, t);
      var p := threads[t].process;
      if processes[p].initial != t {
        TrimmedUnlinking(w, w, p);
        return;
      }
      var t1 := TakeInitial(p);
      ClearedLinks(w, p);
      ghost var w1 := W();
      Drop(t);
      TakenBack(old(held), t);
      ThreadSurvives(w1, W(), t);
      TrimmedUnlinking(w1, W(), p);
      UnlinkingTwice(w, w1, W(), p);
    }

    /** KphUntrackThreadContext; the caller gets a reference. */
    method UntrackThread(cid: nat) returns (t: nat)
      requires Valid()
      modifies this`cells, this`processes, this`threads, this`held
      ensures Valid() && (old(Attached(W())) ==> Attached(W())) && held == Swapped(old(held), 0, t)
      ensures t != 0 ==>
        && cid in old(cells) && t == old(cells[cid]) && cells == old(cells) - {cid}
        && t in threads && !threads[t].inList
        && (threads[t].process != 0 ==>
              threads[t].process in processes && processes[threads[t].process].initial != t)
      ensures t == 0 ==> cells == old(cells) && (cid in cells ==> old(cells[cid] !in threads))
    {
      t := UntrackContext(cid, OfThread);
      ghost var w1 := W();
      if t == 0 {
        assert old(W()).(cells := cells) == old(W());
        if Attached(old(W())) {
          TrimmedAttached(old(W()), w1);
        }
        return;
      }
      UnlistThread(t);
      Kinds(W(), t);
      if Attached(old(W())) {
        Detached(old(W()), w1, W(), cid, t);
      }
    }

    method UnlistThread(t: nat)
      requires Valid() && t in held && t in threads
      modifies this`processes, this`threads, this`held
      ensures Valid() && held == old(held) && NoNewLinks(old(W()), W()) && cells == old(cells)
      ensures t in threads && !threads[t].inList
      ensures threads[t].process != 0 ==>
        threads[t].process in processes && processes[threads[t].process].initial != t
    {
      ghost var w := W();
      assert ThreadOk(w, t);
      if threads[t].process == 0 {
        assert 0 !in processes by {
          Positive(w);
        }
        return;
      }
      Unlist(t);
      ghost var w1 := W();
      Dethrone(t);
      NoNewTwice(w, w1, W());
    }

    /** KphpCidCleanupCallback for the context that came out of a cell. */
    method CleanupCallback(o: nat)
      requires Valid() && o in held
      modifies this`processes, this`threads, this`held
      ensures Valid() && held == old(held)
      ensures Unlinking(old(W()), W(), if old(o in processes) then o else 0)
      ensures o in processes ==> !HasLinks(processes[o])
    {
      TrimmedUnlinking(W(), W(), 0);
      if o in processes {
        Unlink(o);
      }
    }

    method RunDownObject(o: nat)
      requires Valid() && o in held
      modifies this`processes, this`threads, this`held
      ensures Valid() && held == old(held) - multiset{o}
      ensures Unlinking(old(W()), W(), if old(o in processes) then o else 0)
      ensures o in processes ==> !HasLinks(processes[o])
    {
      CleanupCallback(o);
      ghost var w := W();
      Drop(o);
      DropAfter(old(W()), w, W(), o);
    }

    /** One cell of the rundown: KphpCidEnumerateInvokeCallback. */
    method RunDownCell(cid: nat, ghost w0: World)
      requires Valid() && cid in cells && RunDown(w0, W())
      modifies this`cells, this`processes, this`threads, this`held
      ensures Valid() && held == old(held) && cells == old(cells) - {cid} && system == old(system)
      ensures RunDown(w0, W())
    {
      ghost var w := W();
      InCell(w, cid);
      var o := Swap(cid, 0);
      ghost var w1 := W();
      RunDownObject(o);
      TakenBack(old(held), o);
      assert Turn(w, w1, W(), cid, o);
      TurnRunDown(w0, w, w1, W(), cid, o);
    }

    /** KphCidRundown, in whatever order it comes to the cells. */
    method RunDownTable()
      requires Valid()
      modifies this`cells, this`processes, this`threads, this`held
      ensures Valid() && held == old(held) && cells == map[] && system == old(system)
      ensures RunDown(old(W()), W())
    {
      RunDownStart(W());
      while cells.Keys != {}
        invariant Valid() && held == old(held) && system == old(system) && RunDown(old(W()), W())
        decreases |cells.Keys|
      {
        var cid :| cid in cells.Keys;
        ghost var before := cells;
        RunDownCell(cid, old(W()));
        assert cells.Keys == before.Keys - {cid};
      }
    }

    /** The reference of the system process slot is dropped. */
    method DropSystem()
      requires Valid() && cells == map[]
      modifies this`processes, this`threads, this`held, this`system
      ensures Valid() && held == old(held) && system == 0
      ensures Trimmed(old(W()).(system := 0), W(), 0)
    {
      ghost var w := W();
      if system == 0 {
        assert w.(system := 0) == w;
        return;
      }
      var p := system;
      SwappedRefs(held, lost, 0, p);
      held := Swapped(held, 0, p);
      system := 0;
      SystemSet(w, W(), 0, unused);
      ghost var w1 := W();
      Drop(p);
      TakenBack(old(held), p);
      TrimmedRefs(w.(system := 0), w1, W());
    }

    /** KphCidCleanup.  The cycles of references between processes and threads are
        broken: everything is freed, if and only if nobody holds a reference any
        more, none was lost, and every linked process was still in the table. */
    method Cleanup()
      requires Valid()
      modifies this`cells, this`processes, this`threads, this`held, this`system
      ensures Valid() && held == old(held) && cells == map[] && system == 0
      ensures (threads == map[] && processes == map[]) <==> old(Attached(W()) && held + lost == multiset{})
    {
      ghost var w0 := W();
      RunDownTable();
      ghost var w := W();
      DropSystem();
      DropRunDown(w0, w, W());
      RunDownFrees(w0, W());
    }
  }
}
