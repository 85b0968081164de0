/**
 Who refers to whom among the tracked process and thread contexts.

 A process lists its threads and remembers one of them as its initial thread, and
 every thread points back to its process: a cycle of counted references.  This
 module says what the counts are made of and checks every single change to them.
 */
module CidLinks {

  datatype Process = Process(cid: nat, count: nat, list: seq<nat>, number: nat, unlinked: nat, initial: nat)

  datatype Thread = Thread(cid: nat, count: nat, inList: bool, process: nat)

  /** All contexts by address.  `refs` are the references that no cell, link or
      slot accounts for: those of callers and APCs, and those that got lost. */
  datatype World = World(
    cells: map<nat, nat>,
    processes: map<nat, Process>,
    threads: map<nat, Thread>,
    system: nat,
    refs: multiset<nat>)

  predicate Alive(w: World, o: nat) {
    o in w.processes || o in w.threads
  }

  function CellRefs(cells: map<nat, nat>, cid: nat, o: nat): nat {
    if cid in cells && cells[cid] == o then 1 else 0
  }

  /** The threads that point back to a process. */
  function Members(threads: map<nat, Thread>, p: nat): set<nat> {
    set t | t in threads && threads[t].process == p
  }

  predicate IsInitial(w: World, t: nat, p: nat) {
    p in w.processes && w.processes[p].initial == t
  }

  function ThreadRefs(w: World, t: nat): nat
    requires t in w.threads
  {
    var x := w.threads[t];
    CellRefs(w.cells, x.cid, t) + (if x.inList then 1 else 0)
    + (if IsInitial(w, t, x.process) then 1 else 0) + w.refs[t]
  }

  function ProcessRefs(w: World, p: nat): nat
    requires p in w.processes
  {
    CellRefs(w.cells, w.processes[p].cid, p) + |Members(w.threads, p)| + (if w.system == p then 1 else 0) + w.refs[p]
  }

  predicate ThreadOk(w: World, t: nat)
    requires t in w.threads
  {
    var x := w.threads[t];
    && t > 0 && t !in w.processes
    && x.count == ThreadRefs(w, t) > 0
    && (x.process != 0 ==> x.process in w.processes)
    && (x.inList ==> x.process in w.processes && t in w.processes[x.process].list)
  }

  ghost predicate Distinct(s: seq<nat>) {
    forall i, j :: 0 <= i < j < |s| ==> s[i] != s[j]
  }

  /** The entries of a thread list are live members that know they are listed. */
  ghost predicate ListOk(threads: map<nat, Thread>, p: nat, list: seq<nat>) {
    && Distinct(list)
    && forall t :: t in list ==> t in threads && threads[t].process == p && threads[t].inList
  }

  ghost predicate ProcessOk(w: World, p: nat)
    requires p in w.processes
  {
    var x := w.processes[p];
    && p > 0
    && x.count == ProcessRefs(w, p) > 0
    && x.number == |x.list| && ListOk(w.threads, p, x.list)
    && (x.initial != 0 ==> x.initial in w.threads && w.threads[x.initial].process == p)
  }

  predicate CellOk(w: World, cid: nat)
    requires cid in w.cells
  {
    var o := w.cells[cid];
    (o in w.threads && w.threads[o].cid == cid) || (o in w.processes && w.processes[o].cid == cid)
  }

  ghost predicate Inv(w: World) {
    && (forall t :: t in w.threads ==> ThreadOk(w, t))
    && (forall p :: p in w.processes ==> ProcessOk(w, p))
    && (forall cid :: cid in w.cells ==> CellOk(w, cid))
    && (forall o :: o in w.refs ==> Alive(w, o))
    && (w.system != 0 ==> w.system in w.processes)
  }

  function Counted(w: World, o: nat, delta: int): World
    requires o in w.processes ==> w.processes[o].count + delta >= 0
    requires o in w.threads ==> w.threads[o].count + delta >= 0
  {
    if o in w.threads then
      w.(threads := w.threads[o := w.threads[o].(count := w.threads[o].count + delta)])
    else if o in w.processes then
      w.(processes := w.processes[o := w.processes[o].(count := w.processes[o].count + delta)])
    else w
  }

  lemma SameMembers(threads: map<nat, Thread>, threads': map<nat, Thread>, p: nat)
    requires threads.Keys == threads'.Keys && forall t :: t in threads ==> threads'[t].process == threads[t].process
    ensures Members(threads', p) == Members(threads, p)
  {
  }

  /** Only counts differ between the contexts. */
  ghost predicate SameLinks(w: World, w': World) {
    && w'.processes.Keys == w.processes.Keys && w'.threads.Keys == w.threads.Keys
    && (forall t :: t in w.threads ==> w'.threads[t] == w.threads[t].(count := w'.threads[t].count))
    && (forall p :: p in w.processes ==> w'.processes[p] == w.processes[p].(count := w'.processes[p].count))
  }

  /** The references to a context that do not come from another context. */
  function Loose(w: World, cid: nat, o: nat): nat {
    CellRefs(w.cells, cid, o) + (if w.system == o then 1 else 0) + w.refs[o]
  }

  lemma ThreadStays(w: World, w': World, t: nat)
    requires SameLinks(w, w') && t in w.threads && ThreadOk(w, t) && w'.system !in w.threads && w.system !in w.threads
    requires w'.threads[t].count - w.threads[t].count == Loose(w', w.threads[t].cid, t) - Loose(w, w.threads[t].cid, t)
    requires w'.threads[t].count > 0
    ensures ThreadOk(w', t)
  {
  }

  lemma ProcessStays(w: World, w': World, p: nat)
    requires SameLinks(w, w') && p in w.processes && ProcessOk(w, p)
    requires w'.processes[p].count - w.processes[p].count
          == Loose(w', w.processes[p].cid, p) - Loose(w, w.processes[p].cid, p)
    requires w'.processes[p].count > 0
    ensures ProcessOk(w', p)
  {
    SameMembers(w.threads, w'.threads, p);
  }

  /** A count follows the references. */
  predicate Balanced(w: World, w': World, cid: nat, o: nat, before: nat, after: nat) {
    after > 0 && after - before == Loose(w', cid, o) - Loose(w, cid, o)
  }

  lemma Rebalance(w: World, w': World)
    requires Inv(w) && SameLinks(w, w')
    requires forall t :: t in w.threads ==>
      Balanced(w, w', w.threads[t].cid, t, w.threads[t].count, w'.threads[t].count)
    requires forall p :: p in w.processes ==>
      Balanced(w, w', w.processes[p].cid, p, w.processes[p].count, w'.processes[p].count)
    requires forall cid :: cid in w'.cells ==> CellOk(w', cid)
    requires forall o :: o in w'.refs ==> Alive(w, o)
    requires w'.system != 0 ==> w'.system in w.processes
    ensures Inv(w')
  {
    forall t | t in w.threads ensures ThreadOk(w', t) {
      assert ThreadOk(w, t);
      ThreadStays(w, w', t);
    }
    forall p | p in w.processes ensures ProcessOk(w', p) {
      ProcessStays(w, w', p);
    }
  }

  lemma CellsStay(w: World, w': World)
    requires Inv(w) && SameLinks(w, w') && w'.cells == w.cells
    ensures forall cid :: cid in w'.cells ==> CellOk(w', cid)
  {
  }

  lemma CountedLinks(w: World, o: nat, delta: int, refs: multiset<nat>)
    requires CountOf(w, o) + delta >= 0 && (o in w.threads ==> o !in w.processes)
    ensures var w' := Counted(w, o, delta).(refs := refs);
      && SameLinks(w, w') && w'.cells == w.cells && w'.system == w.system
      && (forall t :: t in w.threads ==> w'.threads[t].count == w.threads[t].count + (if t == o then delta else 0))
      && (forall p :: p in w.processes ==>
            w'.processes[p].count == w.processes[p].count + (if p == o then delta else 0))
  {
  }

  lemma CountBalanced(w: World, w': World, o: nat, delta: int, cid: nat, x: nat, before: nat, after: nat)
    requires w'.cells == w.cells && w'.system == w.system
    requires if x == o then w'.refs[x] == w.refs[x] + delta else w'.refs[x] == w.refs[x]
    requires after == before + (if x == o then delta else 0) && after > 0
    ensures Balanced(w, w', cid, x, before, after)
  {
  }

  lemma Count(w: World, o: nat, delta: int, refs: multiset<nat>)
    requires Inv(w) && Alive(w, o) && refs[o] == w.refs[o] + delta
    requires CountOf(w, o) + delta > 0
    requires forall x :: x != o ==> refs[x] == w.refs[x]
    ensures Inv(Counted(w, o, delta).(refs := refs))
  {
    var w' := Counted(w, o, delta).(refs := refs);
    assert o in w.threads ==> ThreadOk(w, o);
    CountedLinks(w, o, delta, refs);
    CellsStay(w, w');
    forall t | t in w.threads
      ensures Balanced(w, w', w.threads[t].cid, t, w.threads[t].count, w'.threads[t].count)
    {
      assert ThreadOk(w, t);
      CountBalanced(w, w', o, delta, w.threads[t].cid, t, w.threads[t].count, w'.threads[t].count);
    }
    forall p | p in w.processes
      ensures Balanced(w, w', w.processes[p].cid, p, w.processes[p].count, w'.processes[p].count)
    {
      assert ProcessOk(w, p);
      CountBalanced(w, w', o, delta, w.processes[p].cid, p, w.processes[p].count, w'.processes[p].count);
    }
    forall x | x in refs ensures Alive(w, x) {
      assert x == o || x in w.refs;
    }
    Rebalance(w, w');
  }

  /** KphReferenceObject. */
  lemma AddRef(w: World, o: nat)
    requires Inv(w) && Alive(w, o)
    ensures Inv(Counted(w, o, 1).(refs := w.refs + multiset{o}))
  {
    Count(w, o, 1, w.refs + multiset{o});
  }

  /** KphDereferenceObject, if it is not the last reference. */
  lemma LessRef(w: World, o: nat)
    requires Inv(w) && o in w.refs && CountOf(w, o) > 1
    ensures Inv(Counted(w, o, -1).(refs := w.refs - multiset{o}))
  {
    assert Alive(w, o);
    Count(w, o, -1, w.refs - multiset{o});
  }

  /** A reference goes in, another comes out. */
  function Swapped(held: multiset<nat>, o: nat, before: nat): multiset<nat> {
    (if o == 0 then held else held - multiset{o}) + (if before == 0 then multiset{} else multiset{before})
  }

  /** The reference of a holder moves into the cell of its CID, and the one that
      was there is handed out; `o` is 0 to empty the cell. */
  function Exchanged(w: World, cid: nat, o: nat): World {
    w.(cells := if o == 0 then w.cells - {cid} else w.cells[cid := o],
       refs := Swapped(w.refs, o, if cid in w.cells then w.cells[cid] else 0))
  }

  function Cid(w: World, o: nat): nat {
    if o in w.threads then w.threads[o].cid else if o in w.processes then w.processes[o].cid else 0
  }

  function CountOf(w: World, o: nat): nat {
    if o in w.threads then w.threads[o].count else if o in w.processes then w.processes[o].count else 0
  }

  lemma ExchangeLoose(w: World, cid: nat, o: nat, x: nat, c: nat)
    requires o != 0 ==> o in w.refs
    requires x == o || (cid in w.cells && x == w.cells[cid]) ==> c == cid
    ensures x != 0 ==> Loose(Exchanged(w, cid, o), c, x) == Loose(w, c, x)
  {
  }

  lemma Exchange(w: World, cid: nat, o: nat)
    requires Inv(w) && (o != 0 ==> o in w.refs && Cid(w, o) == cid)
    ensures Inv(Exchanged(w, cid, o))
  {
    var w' := Exchanged(w, cid, o);
    if o != 0 {
      assert Alive(w, o);
    }
    forall c | c in w'.cells ensures CellOk(w', c) {
      if c != cid {
        assert CellOk(w, c);
      }
    }
    if cid in w.cells {
      assert CellOk(w, cid);
    }
    forall t | t in w.threads
      ensures Balanced(w, w', w.threads[t].cid, t, w.threads[t].count, w'.threads[t].count)
    {
      assert ThreadOk(w, t);
      ExchangeLoose(w, cid, o, t, w.threads[t].cid);
    }
    forall p | p in w.processes
      ensures Balanced(w, w', w.processes[p].cid, p, w.processes[p].count, w'.processes[p].count)
    {
      assert ProcessOk(w, p);
      assert p in w.threads ==> ThreadOk(w, p);
      ExchangeLoose(w, cid, o, p, w.processes[p].cid);
    }
    Rebalance(w, w');
  }

  /** The system process slot takes over a reference, or is emptied with p == 0. */
  function WithSystem(w: World, p: nat): World {
    w.(system := p, refs := Swapped(w.refs, p, w.system))
  }

  lemma SystemLoose(w: World, p: nat, cid: nat, x: nat)
    requires x != 0 && (p != 0 ==> p in w.refs)
    ensures Loose(WithSystem(w, p), cid, x) == Loose(w, cid, x)
  {
  }

  lemma SetSystem(w: World, p: nat)
    requires Inv(w) && (p != 0 ==> p in w.refs && p in w.processes)
    ensures Inv(WithSystem(w, p))
  {
    var w' := WithSystem(w, p);
    CellsStay(w, w');
    forall t | t in w.threads
      ensures Balanced(w, w', w.threads[t].cid, t, w.threads[t].count, w'.threads[t].count)
    {
      assert ThreadOk(w, t);
      SystemLoose(w, p, w.threads[t].cid, t);
    }
    forall q | q in w.processes
      ensures Balanced(w, w', w.processes[q].cid, q, w.processes[q].count, w'.processes[q].count)
    {
      assert ProcessOk(w, q);
      SystemLoose(w, p, w.processes[q].cid, q);
    }
    Rebalance(w, w');
  }

  /** A thread context without references is gone; its reference to the process
      is now one that has to be dropped. */
  function WithoutThread(w: World, t: nat): World
    requires t in w.threads
  {
    var p := w.threads[t].process;
    w.(threads := w.threads - {t}, refs := Swapped(w.refs, t, p))
  }

  lemma LastThreadRef(w: World, t: nat)
    requires Inv(w) && t in w.threads && t in w.refs && w.threads[t].count == 1
    ensures w.refs[t] == 1 && !w.threads[t].inList && !IsInitial(w, t, w.threads[t].process)
    ensures forall cid :: cid in w.cells ==> w.cells[cid] != t
    ensures forall p :: p in w.processes ==> t !in w.processes[p].list && w.processes[p].initial != t
  {
    assert ThreadOk(w, t);
    forall cid | cid in w.cells ensures w.cells[cid] != t {
      assert CellOk(w, cid);
    }
    forall p | p in w.processes ensures t !in w.processes[p].list && w.processes[p].initial != t {
      assert ProcessOk(w, p);
    }
  }

  lemma FewerMembers(threads: map<nat, Thread>, t: nat, p: nat)
    requires t in threads
    ensures |Members(threads - {t}, p)| == |Members(threads, p)| - (if threads[t].process == p then 1 else 0)
  {
    assert Members(threads - {t}, p) == Members(threads, p) - {t};
  }

  lemma ListStays(threads: map<nat, Thread>, t: nat, p: nat, list: seq<nat>)
    requires ListOk(threads, p, list) && t !in list
    ensures ListOk(threads - {t}, p, list)
  {
  }

  lemma FreeThreadKeepsThread(w: World, t: nat, x: nat)
    requires Inv(w) && t in w.threads && t in w.refs && w.threads[t].count == 1
    requires x in WithoutThread(w, t).threads
    ensures ThreadOk(WithoutThread(w, t), x)
  {
  }

  lemma FreeThreadKeepsProcess(w: World, t: nat, q: nat)
    requires Inv(w) && t in w.threads && t in w.refs && w.threads[t].count == 1
    requires q in WithoutThread(w, t).processes
    ensures ProcessOk(WithoutThread(w, t), q)
  {
    LastThreadRef(w, t);
    assert ThreadOk(w, t) && ProcessOk(w, q);
    FewerMembers(w.threads, t, q);
    ListStays(w.threads, t, q, w.processes[q].list);
  }

  lemma FreeThreadKeepsCell(w: World, t: nat, c: nat)
    requires Inv(w) && t in w.threads && t in w.refs && w.threads[t].count == 1
    requires c in WithoutThread(w, t).cells
    ensures CellOk(WithoutThread(w, t), c)
  {
  }

  lemma FreeThread(w: World, t: nat)
    requires Inv(w) && t in w.threads && t in w.refs && w.threads[t].count == 1
    ensures Inv(WithoutThread(w, t))
  {
    var w' := WithoutThread(w, t);
    LastThreadRef(w, t);
    assert ThreadOk(w, t);
    forall x | x in w'.threads ensures ThreadOk(w', x) {
      FreeThreadKeepsThread(w, t, x);
    }
    forall q | q in w'.processes ensures ProcessOk(w', q) {
      FreeThreadKeepsProcess(w, t, q);
    }
    forall c | c in w'.cells ensures CellOk(w', c) {
      FreeThreadKeepsCell(w, t, c);
    }
  }

  lemma MemberFields(w: World, p: nat)
    requires p in w.processes && ProcessOk(w, p)
    ensures w.processes[p].list != [] ==> Members(w.threads, p) != {}
    ensures w.processes[p].initial != 0 ==> w.processes[p].initial in Members(w.threads, p)
  {
    if w.processes[p].list != [] {
      assert w.processes[p].list[0] in Members(w.threads, p);
    }
  }

  lemma NoMembers(w: World, p: nat)
    requires Inv(w) && p in w.processes && Members(w.threads, p) == {}
    ensures w.processes[p].list == [] && w.processes[p].initial == 0
    ensures forall t :: t in w.threads ==> w.threads[t].process != p
  {
    assert ProcessOk(w, p);
    MemberFields(w, p);
    forall t | t in w.threads ensures w.threads[t].process != p {
      assert t !in Members(w.threads, p);
    }
  }

  /** When the last reference to a process goes, it has no threads left: the
      assertions of its delete procedure hold. */
  lemma LastProcessRef(w: World, p: nat)
    requires Inv(w) && p in w.processes && p in w.refs && w.processes[p].count == 1
    ensures w.refs[p] == 1 && Members(w.threads, p) == {} && w.system != p
    ensures w.processes[p].list == [] && w.processes[p].number == 0 && w.processes[p].initial == 0
    ensures forall cid :: cid in w.cells ==> w.cells[cid] != p
  {
    assert ProcessOk(w, p);
    assert |Members(w.threads, p)| == 0;
    NoMembers(w, p);
    forall cid | cid in w.cells ensures w.cells[cid] != p {
      assert CellOk(w, cid);
      assert p in w.threads ==> ThreadOk(w, p);
    }
  }

  function WithoutProcess(w: World, p: nat): World {
    w.(processes := w.processes - {p}, refs := w.refs - multiset{p})
  }

  lemma FreeProcessKeepsThread(w: World, p: nat, x: nat)
    requires Inv(w) && p in w.processes && p in w.refs && w.processes[p].count == 1
    requires x in WithoutProcess(w, p).threads
    ensures ThreadOk(WithoutProcess(w, p), x)
  {
    LastProcessRef(w, p);
    NoMembers(w, p);
    assert ThreadOk(w, x);
  }

  lemma FreeProcessKeepsProcess(w: World, p: nat, q: nat)
    requires Inv(w) && p in w.processes && p in w.refs && w.processes[p].count == 1
    requires q in WithoutProcess(w, p).processes
    ensures ProcessOk(WithoutProcess(w, p), q)
  {
    assert ProcessOk(w, q);
  }

  lemma FreeProcessKeepsCell(w: World, p: nat, c: nat)
    requires Inv(w) && p in w.processes && p in w.refs && w.processes[p].count == 1
    requires c in WithoutProcess(w, p).cells
    ensures CellOk(WithoutProcess(w, p), c)
  {
    LastProcessRef(w, p);
    assert CellOk(w, c);
  }

  lemma FreeProcess(w: World, p: nat)
    requires Inv(w) && p in w.processes && p in w.refs && w.processes[p].count == 1
    ensures Inv(WithoutProcess(w, p))
  {
    var w' := WithoutProcess(w, p);
    LastProcessRef(w, p);
    forall x | x in w'.threads ensures ThreadOk(w', x) {
      FreeProcessKeepsThread(w, p, x);
    }
    forall q | q in w'.processes ensures ProcessOk(w', q) {
      FreeProcessKeepsProcess(w, p, q);
    }
    forall c | c in w'.cells ensures CellOk(w', c) {
      FreeProcessKeepsCell(w, p, c);
    }
  }

  lemma Unknown(w: World, o: nat)
    requires Inv(w) && o > 0 && !Alive(w, o)
    ensures o !in w.refs && w.system != o && Members(w.threads, o) == {}
    ensures forall cid :: cid in w.cells ==> w.cells[cid] != o
    ensures forall p :: p in w.processes ==> o !in w.processes[p].list && w.processes[p].initial != o
  {
  }

  /** A process context as its creation leaves it. */
  function WithProcess(w: World, p: nat, cid: nat): World {
    w.(processes := w.processes[p := Process(cid, 1, [], 0, 0, 0)], refs := w.refs + multiset{p})
  }

  lemma NewProcessKeepsThread(w: World, p: nat, cid: nat, x: nat)
    requires Inv(w) && p > 0 && !Alive(w, p)
    requires x in WithProcess(w, p, cid).threads
    ensures ThreadOk(WithProcess(w, p, cid), x)
  {
  }

  lemma NewProcessKeepsProcess(w: World, p: nat, cid: nat, q: nat)
    requires Inv(w) && p > 0 && !Alive(w, p)
    requires q in WithProcess(w, p, cid).processes
    ensures ProcessOk(WithProcess(w, p, cid), q)
  {
  }

  lemma NewProcessKeepsCell(w: World, p: nat, cid: nat, c: nat)
    requires Inv(w) && p > 0 && !Alive(w, p)
    requires c in WithProcess(w, p, cid).cells
    ensures CellOk(WithProcess(w, p, cid), c)
  {
  }

  lemma NewProcess(w: World, p: nat, cid: nat)
    requires Inv(w) && p > 0 && !Alive(w, p)
    ensures Inv(WithProcess(w, p, cid))
  {
    var w' := WithProcess(w, p, cid);
    forall x | x in w'.threads ensures ThreadOk(w', x) {
      NewProcessKeepsThread(w, p, cid, x);
    }
    forall q | q in w'.processes ensures ProcessOk(w', q) {
      NewProcessKeepsProcess(w, p, cid, q);
    }
    forall c | c in w'.cells ensures CellOk(w', c) {
      NewProcessKeepsCell(w, p, cid, c);
    }
  }

  /** A thread context that took over a reference to its process, if any. */
  function WithThread(w: World, t: nat, cid: nat, p: nat): World {
    w.(threads := w.threads[t := Thread(cid, 1, false, p)],
       refs := (if p == 0 then w.refs else w.refs - multiset{p}) + multiset{t})
  }

  lemma MoreMembers(threads: map<nat, Thread>, t: nat, x: Thread, p: nat)
    requires t !in threads
    ensures |Members(threads[t := x], p)| == |Members(threads, p)| + (if x.process == p then 1 else 0)
  {
    if x.process == p {
      assert Members(threads[t := x], p) == Members(threads, p) + {t};
    } else {
      assert Members(threads[t := x], p) == Members(threads, p);
    }
  }

  lemma NewThreadKeepsThread(w: World, t: nat, cid: nat, p: nat, x: nat)
    requires Inv(w) && t > 0 && !Alive(w, t)
    requires p != 0 ==> p in w.refs && p in w.processes
    requires x in WithThread(w, t, cid, p).threads
    ensures ThreadOk(WithThread(w, t, cid, p), x)
  {
    Unknown(w, t);
    if x != t {
      assert ThreadOk(w, x);
    }
  }

  lemma NewThreadKeepsProcess(w: World, t: nat, cid: nat, p: nat, q: nat)
    requires Inv(w) && t > 0 && !Alive(w, t)
    requires p != 0 ==> p in w.refs && p in w.processes
    requires q in WithThread(w, t, cid, p).processes
    ensures ProcessOk(WithThread(w, t, cid, p), q)
  {
    Unknown(w, t);
    assert ProcessOk(w, q);
    MoreMembers(w.threads, t, Thread(cid, 1, false, p), q);
  }

  lemma NewThreadKeepsCell(w: World, t: nat, cid: nat, p: nat, c: nat)
    requires Inv(w) && t > 0 && !Alive(w, t)
    requires p != 0 ==> p in w.refs && p in w.processes
    requires c in WithThread(w, t, cid, p).cells
    ensures CellOk(WithThread(w, t, cid, p), c)
  {
  }

  lemma NewThread(w: World, t: nat, cid: nat, p: nat)
    requires Inv(w) && t > 0 && !Alive(w, t)
    requires p != 0 ==> p in w.refs && p in w.processes
    ensures Inv(WithThread(w, t, cid, p))
  {
    var w' := WithThread(w, t, cid, p);
    forall x | x in w'.threads ensures ThreadOk(w', x) {
      NewThreadKeepsThread(w, t, cid, p, x);
    }
    forall q | q in w'.processes ensures ProcessOk(w', q) {
      NewThreadKeepsProcess(w, t, cid, p, q);
    }
    forall c | c in w'.cells ensures CellOk(w', c) {
      NewThreadKeepsCell(w, t, cid, p, c);
    }
  }


  /** A thread at the end of the list of its process, and in its initial thread
      slot if that is free. */
  function Linked(w: World, t: nat): World
    requires t in w.threads && w.threads[t].process in w.processes
  {
    var p := w.threads[t].process;
    var x := w.processes[p];
    var first := x.initial == 0;
    w.(threads := w.threads[t := w.threads[t].(inList := true, count := w.threads[t].count + if first then 2 else 1)],
       processes := w.processes[p := x.(list := x.list + [t], number := x.number + 1,
                                        initial := if first then t else x.initial)])
  }

  lemma SameProcess(threads: map<nat, Thread>, t: nat, x: Thread, p: nat)
    requires t in threads && x.process == threads[t].process
    ensures Members(threads[t := x], p) == Members(threads, p)
  {
  }

  lemma LinkKeepsThread(w: World, t: nat, x: nat)
    requires Inv(w) && t in w.threads && !w.threads[t].inList && w.threads[t].process in w.processes
    requires x in Linked(w, t).threads
    ensures ThreadOk(Linked(w, t), x)
  {
    assert ThreadOk(w, t) && ThreadOk(w, x);
    assert t in w.processes[w.threads[t].process].list + [t];
  }

  lemma LinkKeepsProcess(w: World, t: nat, q: nat)
    requires Inv(w) && t in w.threads && !w.threads[t].inList && w.threads[t].process in w.processes
    requires q in Linked(w, t).processes
    ensures ProcessOk(Linked(w, t), q)
  {
    assert ThreadOk(w, t) && ProcessOk(w, q);
    SameProcess(w.threads, t, Linked(w, t).threads[t], q);
  }

  lemma LinkKeepsCell(w: World, t: nat, c: nat)
    requires Inv(w) && t in w.threads && !w.threads[t].inList && w.threads[t].process in w.processes
    requires c in Linked(w, t).cells
    ensures CellOk(Linked(w, t), c)
  {
  }

  lemma Link(w: World, t: nat)
    requires Inv(w) && t in w.threads && !w.threads[t].inList && w.threads[t].process in w.processes
    ensures Inv(Linked(w, t))
  {
    var w' := Linked(w, t);
    forall x | x in w'.threads ensures ThreadOk(w', x) {
      LinkKeepsThread(w, t, x);
    }
    forall q | q in w'.processes ensures ProcessOk(w', q) {
      LinkKeepsProcess(w, t, q);
    }
    forall c | c in w'.cells ensures CellOk(w', c) {
      LinkKeepsCell(w, t, c);
    }
  }

  /** The list of a process without its entry i. */
  function Without(list: seq<nat>, i: nat): seq<nat>
    requires i < |list|
  {
    list[..i] + list[i + 1..]
  }

  /** An entry leaves the list of its process, and its reference is handed out. */
  function Unlisted(w: World, p: nat, i: nat, unlinked: nat): World
    requires p in w.processes && i < |w.processes[p].list| && w.processes[p].list[i] in w.threads
    requires w.processes[p].number > 0
  {
    var x := w.processes[p];
    var t := x.list[i];
    w.(threads := w.threads[t := w.threads[t].(inList := false)],
       processes := w.processes[p := x.(list := Without(x.list, i), number := x.number - 1,
                                        unlinked := x.unlinked + unlinked)],
       refs := w.refs + multiset{t})
  }

  lemma WithoutEntry(list: seq<nat>, i: nat)
    requires Distinct(list) && i < |list|
    ensures Distinct(Without(list, i)) && forall t :: t in Without(list, i) <==> t in list && t != list[i]
  {
  }

  lemma Listed(w: World, p: nat, i: nat)
    requires Inv(w) && p in w.processes && i < |w.processes[p].list|
    ensures var t := w.processes[p].list[i];
      t in w.threads && w.threads[t].process == p && w.threads[t].inList && w.processes[p].number > 0
    ensures ThreadOk(w, w.processes[p].list[i]) && ProcessOk(w, p)
  {
  }

  lemma UnlistKeepsThread(w: World, p: nat, i: nat, unlinked: nat, x: nat)
    requires Inv(w) && p in w.processes && i < |w.processes[p].list|
    requires w.processes[p].list[i] in w.threads && w.processes[p].number > 0
    requires x in Unlisted(w, p, i, unlinked).threads
    ensures ThreadOk(Unlisted(w, p, i, unlinked), x)
  {
    Listed(w, p, i);
    assert ThreadOk(w, x);
    WithoutEntry(w.processes[p].list, i);
  }

  lemma UnlistKeepsProcess(w: World, p: nat, i: nat, unlinked: nat, q: nat)
    requires Inv(w) && p in w.processes && i < |w.processes[p].list|
    requires w.processes[p].list[i] in w.threads && w.processes[p].number > 0
    requires q in Unlisted(w, p, i, unlinked).processes
    ensures ProcessOk(Unlisted(w, p, i, unlinked), q)
  {
    Listed(w, p, i);
    assert ProcessOk(w, q);
    WithoutEntry(w.processes[p].list, i);
    var t := w.processes[p].list[i];
    SameProcess(w.threads, t, w.threads[t].(inList := false), q);
  }

  lemma UnlistKeepsCell(w: World, p: nat, i: nat, unlinked: nat, c: nat)
    requires Inv(w) && p in w.processes && i < |w.processes[p].list|
    requires w.processes[p].list[i] in w.threads && w.processes[p].number > 0
    requires c in Unlisted(w, p, i, unlinked).cells
    ensures CellOk(Unlisted(w, p, i, unlinked), c)
  {
  }

  lemma Unlist(w: World, p: nat, i: nat, unlinked: nat)
    requires Inv(w) && p in w.processes && i < |w.processes[p].list|
    requires w.processes[p].list[i] in w.threads && w.processes[p].number > 0
    ensures Inv(Unlisted(w, p, i, unlinked))
  {
    var w' := Unlisted(w, p, i, unlinked);
    Listed(w, p, i);
    forall x | x in w'.threads ensures ThreadOk(w', x) {
      UnlistKeepsThread(w, p, i, unlinked, x);
    }
    forall q | q in w'.processes ensures ProcessOk(w', q) {
      UnlistKeepsProcess(w, p, i, unlinked, q);
    }
    forall c | c in w'.cells ensures CellOk(w', c) {
      UnlistKeepsCell(w, p, i, unlinked, c);
    }
  }

  /** The initial thread slot is emptied, and its reference is handed out. */
  function WithoutInitial(w: World, p: nat): World
    requires p in w.processes
  {
    w.(processes := w.processes[p := w.processes[p].(initial := 0)], refs := w.refs + multiset{w.processes[p].initial})
  }

  lemma ClearInitialKeepsThread(w: World, p: nat, x: nat)
    requires Inv(w) && p in w.processes && w.processes[p].initial != 0
    requires x in WithoutInitial(w, p).threads
    ensures ThreadOk(WithoutInitial(w, p), x)
  {
    assert ProcessOk(w, p) && ThreadOk(w, x);
  }

  lemma ClearInitialKeepsProcess(w: World, p: nat, q: nat)
    requires Inv(w) && p in w.processes && w.processes[p].initial != 0
    requires q in WithoutInitial(w, p).processes
    ensures ProcessOk(WithoutInitial(w, p), q)
  {
  }

  lemma ClearInitialKeepsCell(w: World, p: nat, c: nat)
    requires Inv(w) && p in w.processes && w.processes[p].initial != 0
    requires c in WithoutInitial(w, p).cells
    ensures CellOk(WithoutInitial(w, p), c)
  {
  }

  lemma ClearInitial(w: World, p: nat)
    requires Inv(w) && p in w.processes && w.processes[p].initial != 0
    ensures Inv(WithoutInitial(w, p))
  {
    var w' := WithoutInitial(w, p);
    assert ProcessOk(w, p);
    forall x | x in w'.threads ensures ThreadOk(w', x) {
      ClearInitialKeepsThread(w, p, x);
    }
    forall q | q in w'.processes ensures ProcessOk(w', q) {
      ClearInitialKeepsProcess(w, p, q);
    }
    forall c | c in w'.cells ensures CellOk(w', c) {
      ClearInitialKeepsCell(w, p, c);
    }
  }
}
