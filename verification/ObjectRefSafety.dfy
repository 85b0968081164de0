/**
 The inductive invariant of the atomic object references: what the lock bits
 mean, who may touch the pointer, and what every reference count stands for.
 */
module ObjectRefSafety {
  import opened Division
  import opened LockWord
  import opened ObjectRef
  import opened Wrappers

  /** Something a thread can contribute to. */
  datatype Probe =
    | Sharer(cell: nat)     // is between acquiring and releasing the lock shared
    | Excluder(cell: nat)   // set the exclusive bit and has not reset it
    | Holder(obj: nat)      // references the thread accounts for
    | Freer(obj: nat)       // took the last reference and has not freed the object yet

  function Bit(b: bool): nat {
    if b then 1 else 0
  }

  function Weight(p: Probe, th: Thread): nat {
    match p
    case Sharer(c) =>
      Bit((th.pc.RefLoad? || th.pc.RefInc? || th.pc.RefRelease?) && th.pc.cell == c)
    case Excluder(c) =>
      Bit((th.pc.StoreDrain? || th.pc.StoreLoad? || th.pc.StoreSwap? || th.pc.StoreUnlock?) && th.pc.cell == c)
    case Holder(o) =>
      th.owned[o] + Bit(InHand(th.pc) == o)
    case Freer(o) =>
      Bit((th.pc.DerefDelete? || th.pc.DerefFree?) && th.pc.obj == o)
  }

  /** The object whose reference the step sequence carries, 0 if none. */
  function InHand(pc: Pc): nat {
    match pc
    case RefRelease(_, obj) => obj
    case StoreRead(_, obj, _) => obj
    case StoreCas(_, obj, _, _) => obj
    case StoreDrain(_, obj, _, _) => obj
    case StoreLoad(_, obj, _) => obj
    case StoreSwap(_, obj, _, _) => obj
    case StoreUnlock(_, _, _, prev) => prev
    case DerefDec(obj) => obj
    case _ => 0
  }

  function Sum(p: Probe, threads: seq<Thread>): nat {
    if threads == [] then 0 else Sum(p, threads[..|threads| - 1]) + Weight(p, threads[|threads| - 1])
  }

  lemma {:induction false} SumUpdate(p: Probe, threads: seq<Thread>, t: nat, th: Thread)
    requires t < |threads|
    ensures Sum(p, threads[t := th]) == Sum(p, threads) - Weight(p, threads[t]) + Weight(p, th)
  {
    var last := |threads| - 1;
    if t < last {
      SumUpdate(p, threads[..last], t, th);
      assert threads[t := th][..last] == threads[..last][t := th];
    } else {
      assert threads[t := th][..last] == threads[..last];
    }
  }

  lemma {:induction false} SumMember(p: Probe, threads: seq<Thread>, t: nat)
    requires t < |threads|
    ensures Sum(p, threads) >= Weight(p, threads[t])
  {
    if t < |threads| - 1 {
      SumMember(p, threads[..|threads| - 1], t);
    }
  }

  lemma {:induction false} SumPair(p: Probe, threads: seq<Thread>, t: nat, u: nat)
    requires t < u < |threads|
    ensures Sum(p, threads) >= Weight(p, threads[t]) + Weight(p, threads[u])
  {
    var last := |threads| - 1;
    if u < last {
      SumPair(p, threads[..last], t, u);
    } else {
      SumMember(p, threads[..last], t);
    }
  }

  /** The number of cells that hold a given object. */
  function CellRefs(w: nat, cells: seq<nat>, obj: nat): nat
    requires w >= 2
  {
    if cells == [] then 0
    else CellRefs(w, cells[..|cells| - 1], obj) + Bit(Decode(w, cells[|cells| - 1]).pointer == obj)
  }

  lemma {:induction false} CellRefsUpdate(w: nat, cells: seq<nat>, obj: nat, c: nat, word: nat)
    requires w >= 2 && c < |cells|
    ensures CellRefs(w, cells[c := word], obj)
         == CellRefs(w, cells, obj) - Bit(Decode(w, cells[c]).pointer == obj) + Bit(Decode(w, word).pointer == obj)
  {
    var last := |cells| - 1;
    if c < last {
      CellRefsUpdate(w, cells[..last], obj, c, word);
      assert cells[c := word][..last] == cells[..last][c := word];
    } else {
      assert cells[c := word][..last] == cells[..last];
    }
  }

  lemma {:induction false} CellRefsMember(w: nat, cells: seq<nat>, obj: nat, c: nat)
    requires w >= 2 && c < |cells| && Decode(w, cells[c]).pointer == obj
    ensures CellRefs(w, cells, obj) >= 1
  {
    if c < |cells| - 1 {
      CellRefsMember(w, cells[..|cells| - 1], obj, c);
    }
  }

  function Word(s: State, c: nat): Fields
    requires s.w >= 2 && c < |s.cells|
  {
    Decode(s.w, s.cells[c])
  }

  /** The steps that belong to one of the three calls on a cell. */
  predicate InCall(pc: Pc) {
    !pc.Idle? && !pc.DerefDec? && !pc.DerefDelete? && !pc.DerefFree?
  }

  /** What a thread may rely on at its program counter. */
  ghost predicate ThreadOk(s: State, th: Thread)
    requires s.w >= 2
  {
    && (th.call.Some? ==> th.call.value < |s.calls|)
    && (InCall(th.pc) ==> th.call.Some?)
    && 0 !in th.owned
    && PcOk(s, th)
  }

  ghost predicate PcOk(s: State, th: Thread)
    requires s.w >= 2
  {
    match th.pc
    case Idle => true
    case RefRead(c) => c < |s.cells|
    case RefCas(c, seen) => c < |s.cells| && Lock(s.w, seen) < SharedMax(s.w)
    case RefLoad(c) => c < |s.cells|
    case RefInc(c, obj) => c < |s.cells| && obj > 0 && Word(s, c).pointer == obj
    case RefRelease(c, obj) => c < |s.cells|
    case AssignInc(c, obj) => c < |s.cells| && obj > 0 && obj in th.owned
    case StoreRead(c, obj, kind) => c < |s.cells|
    case StoreCas(c, obj, kind, seen) => c < |s.cells| && !Decode(s.w, seen).exclusive
    case StoreDrain(c, obj, kind, seen) => c < |s.cells| && Word(s, c).shared <= Decode(s.w, seen).shared
    case StoreLoad(c, obj, kind) => c < |s.cells| && Word(s, c).shared == 0
    case StoreSwap(c, obj, kind, prev) => c < |s.cells| && Word(s, c).shared == 0 && Word(s, c).pointer == prev
    case StoreUnlock(c, obj, kind, prev) => c < |s.cells| && Word(s, c).shared == 0
    case DerefDec(obj) => obj > 0
    case DerefDelete(obj) => obj > 0
    case DerefFree(obj) => obj > 0
  }

  ghost predicate Locks(s: State)
    requires s.w >= 2
  {
    forall c :: 0 <= c < |s.cells| ==>
      && Word(s, c).shared == Sum(Sharer(c), s.threads)
      && Bit(Word(s, c).exclusive) == Sum(Excluder(c), s.threads)
  }

  function Count(s: State, obj: nat): nat {
    if obj in s.heap then s.heap[obj] else 0
  }

  ghost predicate Counts(s: State)
    requires s.w >= 2
  {
    && (forall obj :: obj in s.heap ==> obj > 0 && Rem(obj, 2 * s.w) == 0)
    && (forall obj: nat :: obj > 0 ==>
          && Count(s, obj) == CellRefs(s.w, s.cells, obj) + Sum(Holder(obj), s.threads)
          && Sum(Freer(obj), s.threads) == Bit(obj in s.heap && s.heap[obj] == 0))
    && |s.heap| + s.freed == s.created
  }

  ghost predicate Inv(s: State) {
    && s.w >= 2
    && !s.fault
    && (forall t :: 0 <= t < |s.threads| ==> ThreadOk(s, s.threads[t]))
    && Locks(s)
    && Counts(s)
  }

  /** How every probe reacts to the change of one thread. */
  lemma SumUpdateAll(s: State, t: nat, th: Thread)
    requires t < |s.threads|
    ensures forall p :: Sum(p, s.threads[t := th]) == Sum(p, s.threads) - Weight(p, s.threads[t]) + Weight(p, th)
    ensures forall p :: Sum(p, s.threads) >= Weight(p, s.threads[t])
  {
    forall p
      ensures Sum(p, s.threads[t := th]) == Sum(p, s.threads) - Weight(p, s.threads[t]) + Weight(p, th)
      ensures Sum(p, s.threads) >= Weight(p, s.threads[t])
    {
      SumUpdate(p, s.threads, t, th);
      SumMember(p, s.threads, t);
    }
  }

  /** A thread of another cell section, or a sharer, excludes what it should. */
  lemma Exclusion(s: State, t: nat, u: nat, c: nat)
    requires Inv(s) && t < |s.threads| && u < |s.threads| && t != u && c < |s.cells|
    ensures Weight(Excluder(c), s.threads[t]) == 1 ==> Weight(Excluder(c), s.threads[u]) == 0
    ensures Weight(Excluder(c), s.threads[t]) == 1 ==> Word(s, c).exclusive
    ensures Weight(Sharer(c), s.threads[t]) == 1 ==> Word(s, c).shared >= 1
  {
    SumMember(Excluder(c), s.threads, t);
    SumMember(Sharer(c), s.threads, t);
    if t < u {
      SumPair(Excluder(c), s.threads, t, u);
    } else {
      SumPair(Excluder(c), s.threads, u, t);
    }
  }

  /** A step of thread t that changes the word of at most one cell and moves
      the references it accounts for consistently keeps the invariant. */
  lemma LocalStep(s: State, s': State, t: nat, c: nat, th: Thread)
    requires Inv(s) && t < |s.threads| && c < |s.cells|
    requires s'.w == s.w && |s'.cells| == |s.cells|
    requires forall d :: 0 <= d < |s.cells| && d != c ==> s'.cells[d] == s.cells[d]
    requires s'.threads == s.threads[t := th]
    requires forall d :: 0 <= d < |s.cells| && d != c ==>
               && Weight(Sharer(d), th) == Weight(Sharer(d), s.threads[t])
               && Weight(Excluder(d), th) == Weight(Excluder(d), s.threads[t])
    requires Word(s', c).shared + Weight(Sharer(c), s.threads[t]) == Word(s, c).shared + Weight(Sharer(c), th)
    requires Bit(Word(s', c).exclusive) + Weight(Excluder(c), s.threads[t])
          == Bit(Word(s, c).exclusive) + Weight(Excluder(c), th)
    ensures Locks(s')
  {
    SumUpdateAll(s, t, th);
  }

  /** The other threads keep what they rely on. */
  lemma OthersOk(s: State, s': State, t: nat, c: nat, u: nat)
    requires Inv(s) && t < |s.threads| && c < |s.cells| && u < |s.threads| && u != t
    requires s'.w == s.w && |s'.cells| == |s.cells| && |s'.calls| >= |s.calls|
    requires forall d :: 0 <= d < |s.cells| && d != c ==> s'.cells[d] == s.cells[d]
    requires || (Word(s', c).pointer == Word(s, c).pointer
                 && (Word(s', c).shared <= Word(s, c).shared || !Word(s, c).exclusive))
             || (Weight(Excluder(c), s.threads[t]) == 1 && Word(s, c).shared == 0 && Word(s', c).shared == 0)
    ensures ThreadOk(s', s.threads[u])
  {
    Exclusion(s, t, u, c);
    Exclusion(s, u, t, c);
  }

  /** A step that leaves cells and counts alone and moves no reference. */
  lemma QuietStep(s: State, s': State, t: nat, th: Thread)
    requires Inv(s) && t < |s.threads| && ThreadOk(s, th)
    requires s' == s.(threads := s.threads[t := th])
    requires forall p :: Weight(p, th) == Weight(p, s.threads[t])
    ensures Inv(s')
  {
    SumUpdateAll(s, t, th);
    forall u | 0 <= u < |s'.threads| ensures ThreadOk(s', s'.threads[u]) {
      assert ThreadOk(s, s'.threads[u]);
    }
  }

  /** What entering or leaving the lock of cell c changes of a thread: nothing else. */
  ghost predicate OnlyLeaves(from: Thread, to: Thread, c: nat) {
    && (forall d: nat :: d != c ==> Weight(Sharer(d), to) == Weight(Sharer(d), from))
    && (forall d: nat :: d != c ==> Weight(Excluder(d), to) == Weight(Excluder(d), from))
    && (forall o: nat :: o > 0 ==> Weight(Holder(o), to) == Weight(Holder(o), from))
    && (forall o: nat :: o > 0 ==> Weight(Freer(o), to) == Weight(Freer(o), from))
  }

  /** A step that only changes the lock bits of one cell. */
  lemma LockStep(s: State, s': State, t: nat, c: nat, th: Thread)
    requires Inv(s) && !s'.fault && t < |s.threads| && c < |s.cells|
    requires s'.w == s.w && |s'.cells| == |s.cells| && s'.threads == s.threads[t := th]
    requires s'.heap == s.heap && s'.created == s.created && s'.freed == s.freed && |s'.calls| >= |s.calls|
    requires s'.cells == s.cells[c := s'.cells[c]]
    requires ThreadOk(s', th)
    requires Word(s', c).pointer == Word(s, c).pointer
    requires Word(s', c).shared <= Word(s, c).shared || !Word(s, c).exclusive
    requires OnlyLeaves(s.threads[t], th, c)
    requires Word(s', c).shared + Weight(Sharer(c), s.threads[t]) == Word(s, c).shared + Weight(Sharer(c), th)
    requires Bit(Word(s', c).exclusive) + Weight(Excluder(c), s.threads[t])
          == Bit(Word(s, c).exclusive) + Weight(Excluder(c), th)
    ensures Inv(s')
  {
    LocalStep(s, s', t, c, th);
    SumUpdateAll(s, t, th);
    forall u | 0 <= u < |s'.threads| ensures ThreadOk(s', s'.threads[u]) {
      if u != t {
        OthersOk(s, s', t, c, u);
      }
    }
    forall o: nat | o > 0
      ensures && Count(s', o) == CellRefs(s'.w, s'.cells, o) + Sum(Holder(o), s'.threads)
              && Sum(Freer(o), s'.threads) == Bit(o in s'.heap && s'.heap[o] == 0)
    {
      CellRefsUpdate(s.w, s.cells, o, c, s'.cells[c]);
    }
  }

  /** A step of thread t that only moves reference counts. */
  lemma CountStep(s: State, s': State, t: nat, th: Thread)
    requires Inv(s) && !s'.fault && t < |s.threads|
    requires s'.w == s.w && s'.cells == s.cells && s'.threads == s.threads[t := th] && |s'.calls| >= |s.calls|
    requires ThreadOk(s', th)
    requires forall c :: Weight(Sharer(c), th) == Weight(Sharer(c), s.threads[t])
    requires forall c :: Weight(Excluder(c), th) == Weight(Excluder(c), s.threads[t])
    requires s'.heap.Keys <= s.heap.Keys
    requires |s'.heap| + s'.freed == s'.created
    requires forall o: nat :: o > 0 ==>
               && Count(s', o) + Weight(Holder(o), s.threads[t]) == Count(s, o) + Weight(Holder(o), th)
               && Bit(o in s'.heap && s'.heap[o] == 0) + Weight(Freer(o), s.threads[t])
               == Bit(o in s.heap && s.heap[o] == 0) + Weight(Freer(o), th)
    ensures Inv(s')
  {
    SumUpdateAll(s, t, th);
    assert forall o :: o in s'.heap ==> o in s.heap.Keys;
    forall u | 0 <= u < |s'.threads| ensures ThreadOk(s', s'.threads[u]) {
      assert u != t ==> ThreadOk(s, s'.threads[u]);
    }
  }

  /** A counted object is allocated, aligned and has a positive count. */
  lemma Referenced(s: State, t: nat, obj: nat)
    requires Inv(s) && t < |s.threads| && obj > 0
    requires Weight(Holder(obj), s.threads[t]) >= 1
    ensures obj in s.heap && s.heap[obj] >= 1 && Rem(obj, 2 * s.w) == 0
  {
    SumMember(Holder(obj), s.threads, t);
  }

  lemma Stored(s: State, c: nat)
    requires Inv(s) && c < |s.cells| && Word(s, c).pointer > 0
    ensures var obj := Word(s, c).pointer; obj in s.heap && s.heap[obj] >= 1
  {
    CellRefsMember(s.w, s.cells, Word(s, c).pointer, c);
  }

  lemma RefReadKeeps(s: State, t: nat)
    requires Inv(s) && t < |s.threads| && s.threads[t].pc.RefRead?
    ensures Inv(Step(s, t))
  {
    var s' := Step(s, t);
    QuietStep(s, s', t, s'.threads[t]);
  }

  lemma RefCasKeeps(s: State, t: nat)
    requires Inv(s) && t < |s.threads| && s.threads[t].pc.RefCas?
    ensures Inv(Step(s, t))
  {
    var s' := Step(s, t);
    var RefCas(c, seen) := s.threads[t].pc;
    if s.cells[c] == seen {
      RefCasStep(s, s', t, c, seen, s.threads[t].(pc := RefLoad(c)));
    } else {
      QuietStep(s, s', t, s'.threads[t]);
    }
  }

  lemma AcquireLeaves(from: Thread, to: Thread)
    requires from.pc.RefCas? && to == from.(pc := RefLoad(from.pc.cell))
    ensures OnlyLeaves(from, to, from.pc.cell)
    ensures Weight(Sharer(from.pc.cell), from) == 0 && Weight(Sharer(from.pc.cell), to) == 1
    ensures Weight(Excluder(from.pc.cell), from) == Weight(Excluder(from.pc.cell), to) == 0
  {
  }

  lemma RefCasStep(s: State, s': State, t: nat, c: nat, seen: nat, th: Thread)
    requires Inv(s) && t < |s.threads| && s.threads[t].pc.RefCas? && c == s.threads[t].pc.cell
    requires seen == s.threads[t].pc.seen == s.cells[c]
    requires th == s.threads[t].(pc := RefLoad(c))
    requires s' == s.(cells := s.cells[c := seen + 1], threads := s.threads[t := th])
    ensures Inv(s')
  {
    AcquireLeaves(s.threads[t], th);
    assert ThreadOk(s, s.threads[t]);
    AddShared(s.w, seen);
    LockStep(s, s', t, c, th);
  }

  lemma RefLoadKeeps(s: State, t: nat)
    requires Inv(s) && t < |s.threads| && s.threads[t].pc.RefLoad?
    ensures Inv(Step(s, t))
  {
    var s' := Step(s, t);
    LockStep(s, s', t, s.threads[t].pc.cell, s'.threads[t]);
  }

  /** Adding one to a positive count on behalf of thread t. */
  lemma IncrementStep(s: State, s': State, t: nat, obj: nat, th: Thread)
    requires Inv(s) && t < |s.threads| && obj in s.heap && s.heap[obj] >= 1
    requires s'.w == s.w && s'.cells == s.cells && s'.threads == s.threads[t := th]
    requires s'.heap == s.heap[obj := s.heap[obj] + 1] && s'.created == s.created && s'.freed == s.freed
    requires !s'.fault && |s'.calls| == |s.calls|
    requires ThreadOk(s', th)
    requires forall c :: Weight(Sharer(c), th) == Weight(Sharer(c), s.threads[t])
    requires forall c :: Weight(Excluder(c), th) == Weight(Excluder(c), s.threads[t])
    requires forall o: nat :: o > 0 ==>
               && Weight(Holder(o), th) == Weight(Holder(o), s.threads[t]) + Bit(o == obj)
               && Weight(Freer(o), th) == Weight(Freer(o), s.threads[t])
    ensures Inv(s')
  {
    assert s'.heap.Keys == s.heap.Keys;
    CountStep(s, s', t, th);
  }

  lemma RefIncKeeps(s: State, t: nat)
    requires Inv(s) && t < |s.threads| && s.threads[t].pc.RefInc?
    ensures Inv(Step(s, t))
  {
    var RefInc(c, obj) := s.threads[t].pc;
    Stored(s, c);
    IncrementStep(s, Step(s, t), t, obj, s.threads[t].(pc := RefRelease(c, obj)));
  }

  lemma RefReleaseKeeps(s: State, t: nat)
    requires Inv(s) && t < |s.threads| && s.threads[t].pc.RefRelease?
    ensures Inv(Step(s, t))
  {
    var RefRelease(c, obj) := s.threads[t].pc;
    assert Word(s, c).shared > 0 by {
      SumMember(Sharer(c), s.threads, t);
    }
    DropShared(s.w, s.cells[c]);
    RefReleaseStep(s, Step(s, t), t, c, Thread(Idle, s.threads[t].owned + One(obj), None));
  }

  lemma ReleaseLeaves(from: Thread, to: Thread)
    requires from.pc.RefRelease? && to == Thread(Idle, from.owned + One(from.pc.obj), None)
    ensures OnlyLeaves(from, to, from.pc.cell)
    ensures Weight(Sharer(from.pc.cell), from) == 1 && Weight(Sharer(from.pc.cell), to) == 0
    ensures Weight(Excluder(from.pc.cell), from) == Weight(Excluder(from.pc.cell), to) == 0
  {
  }

  lemma UnlockLeaves(from: Thread, to: Thread)
    requires from.pc.StoreUnlock?
    requires || (from.pc.prev != 0 && to == from.(pc := DerefDec(from.pc.prev)))
             || to == Thread(Idle, from.owned + One(from.pc.prev), None)
    ensures OnlyLeaves(from, to, from.pc.cell)
    ensures Weight(Excluder(from.pc.cell), from) == 1 && Weight(Excluder(from.pc.cell), to) == 0
    ensures Weight(Sharer(from.pc.cell), from) == Weight(Sharer(from.pc.cell), to) == 0
  {
  }

  lemma RefReleaseStep(s: State, s': State, t: nat, c: nat, th: Thread)
    requires Inv(s) && t < |s.threads| && s.threads[t].pc.RefRelease? && c == s.threads[t].pc.cell
    requires th == Thread(Idle, s.threads[t].owned + One(s.threads[t].pc.obj), None)
    requires s'.w == s.w && s'.threads == s.threads[t := th] && !s'.fault && |s'.calls| == |s.calls|
    requires s.cells[c] >= 1 && s'.cells == s.cells[c := s.cells[c] - 1]
    requires s'.heap == s.heap && s'.created == s.created && s'.freed == s.freed
    ensures Inv(s')
  {
    ReleaseLeaves(s.threads[t], th);
    SumMember(Sharer(c), s.threads, t);
    DropShared(s.w, s.cells[c]);
    LockStep(s, s', t, c, th);
  }

  lemma AssignIncKeeps(s: State, t: nat)
    requires Inv(s) && t < |s.threads| && s.threads[t].pc.AssignInc?
    ensures Inv(Step(s, t))
  {
    var AssignInc(c, obj) := s.threads[t].pc;
    Referenced(s, t, obj);
    IncrementStep(s, Step(s, t), t, obj, s.threads[t].(pc := StoreRead(c, obj, Assign)));
  }

  lemma StoreReadKeeps(s: State, t: nat)
    requires Inv(s) && t < |s.threads| && s.threads[t].pc.StoreRead?
    ensures Inv(Step(s, t))
  {
    var s' := Step(s, t);
    QuietStep(s, s', t, s'.threads[t]);
  }

  lemma StoreDrainKeeps(s: State, t: nat)
    requires Inv(s) && t < |s.threads| && s.threads[t].pc.StoreDrain?
    ensures Inv(Step(s, t))
  {
    var s' := Step(s, t);
    QuietStep(s, s', t, s'.threads[t]);
  }

  lemma StoreLoadKeeps(s: State, t: nat)
    requires Inv(s) && t < |s.threads| && s.threads[t].pc.StoreLoad?
    ensures Inv(Step(s, t))
  {
    var s' := Step(s, t);
    QuietStep(s, s', t, s'.threads[t]);
  }

  lemma StoreCasKeeps(s: State, t: nat)
    requires Inv(s) && t < |s.threads| && s.threads[t].pc.StoreCas?
    ensures Inv(Step(s, t))
  {
    var s' := Step(s, t);
    var StoreCas(c, obj, kind, seen) := s.threads[t].pc;
    if s.cells[c] == seen {
      StoreCasStep(s, s', t, c, seen, s.threads[t].(pc := StoreDrain(c, obj, kind, seen)));
    } else {
      QuietStep(s, s', t, s'.threads[t]);
    }
  }

  lemma ExcludeLeaves(from: Thread, to: Thread)
    requires from.pc.StoreCas? && to == from.(pc := StoreDrain(from.pc.cell, from.pc.obj, from.pc.kind, from.pc.seen))
    ensures OnlyLeaves(from, to, from.pc.cell)
    ensures Weight(Excluder(from.pc.cell), from) == 0 && Weight(Excluder(from.pc.cell), to) == 1
    ensures Weight(Sharer(from.pc.cell), from) == Weight(Sharer(from.pc.cell), to) == 0
  {
  }

  lemma StoreCasStep(s: State, s': State, t: nat, c: nat, seen: nat, th: Thread)
    requires Inv(s) && t < |s.threads| && s.threads[t].pc.StoreCas? && c == s.threads[t].pc.cell
    requires seen == s.threads[t].pc.seen == s.cells[c]
    requires th == s.threads[t].(pc := StoreDrain(c, s.threads[t].pc.obj, s.threads[t].pc.kind, seen))
    requires s' == s.(cells := s.cells[c := seen + s.w], threads := s.threads[t := th])
    ensures Inv(s')
  {
    ExcludeLeaves(s.threads[t], th);
    assert ThreadOk(s, s.threads[t]);
    SetExclusive(s.w, seen);
    assert Word(s', c) == Word(s, c).(exclusive := true);
    assert ThreadOk(s', th);
    LockStep(s, s', t, c, th);
  }

  lemma UnlockKeeps(s: State, t: nat)
    requires Inv(s) && t < |s.threads| && s.threads[t].pc.StoreUnlock?
    ensures Inv(Step(s, t))
  {
    var s' := Step(s, t);
    var th := s.threads[t];
    var StoreUnlock(c, obj, kind, prev) := th.pc;
    assert Word(s, c).exclusive by {
      SumMember(Excluder(c), s.threads, t);
    }
    ResetExclusive(s.w, s.cells[c]);
    if kind.Assign? && prev != 0 {
      UnlockStep(s, s', t, c, th.(pc := DerefDec(prev)));
    } else {
      UnlockStep(s, s', t, c, Thread(Idle, th.owned + One(prev), None));
    }
  }

  lemma UnlockStep(s: State, s': State, t: nat, c: nat, th: Thread)
    requires Inv(s) && t < |s.threads| && s.threads[t].pc.StoreUnlock? && c == s.threads[t].pc.cell
    requires var prev := s.threads[t].pc.prev;
      || (prev != 0 && th == s.threads[t].(pc := DerefDec(prev)))
      || th == Thread(Idle, s.threads[t].owned + One(prev), None)
    requires s'.w == s.w && s'.threads == s.threads[t := th] && !s'.fault && |s'.calls| == |s.calls|
    requires s.cells[c] >= s.w && s'.cells == s.cells[c := s.cells[c] - s.w]
    requires s'.heap == s.heap && s'.created == s.created && s'.freed == s.freed
    ensures Inv(s')
  {
    UnlockLeaves(s.threads[t], th);
    UnlockWords(s, s', t, c);
    assert ThreadOk(s, s.threads[t]) && ThreadOk(s', th);
    LockStep(s, s', t, c, th);
  }

  lemma UnlockWords(s: State, s': State, t: nat, c: nat)
    requires Inv(s) && t < |s.threads| && s.threads[t].pc.StoreUnlock? && c == s.threads[t].pc.cell
    requires s'.w == s.w && |s'.cells| == |s.cells|
    requires c < |s.cells| && s.cells[c] >= s.w ==> s'.cells[c] == s.cells[c] - s.w
    ensures c < |s.cells| && s.cells[c] >= s.w && Word(s, c).exclusive && Word(s, c).shared == 0
    ensures Word(s', c) == Word(s, c).(exclusive := false)
  {
    assert ThreadOk(s, s.threads[t]);
    SumMember(Excluder(c), s.threads, t);
    ResetExclusive(s.w, s.cells[c]);
  }

  /** The exchange: the pointer changes, no lock count is lost, and the
      reference of the new pointer moves from the thread into the cell while
      that of the previous one moves out. */
  lemma SwapKeeps(s: State, t: nat)
    requires Inv(s) && t < |s.threads| && s.threads[t].pc.StoreSwap?
    ensures Inv(Step(s, t))
  {
    var StoreSwap(c, obj, kind, prev) := s.threads[t].pc;
    SwapStep(s, Step(s, t), t, c, obj, s.threads[t].(pc := StoreUnlock(c, obj, kind, prev)));
  }

  lemma SwapLeaves(from: Thread, to: Thread)
    requires from.pc.StoreSwap? && to == from.(pc := StoreUnlock(from.pc.cell, from.pc.obj, from.pc.kind, from.pc.prev))
    ensures forall d: nat :: Weight(Sharer(d), to) == Weight(Sharer(d), from)
    ensures forall d: nat :: Weight(Excluder(d), to) == Weight(Excluder(d), from)
    ensures forall o: nat :: o > 0 ==>
      Weight(Holder(o), to) + Bit(from.pc.obj == o) == Weight(Holder(o), from) + Bit(from.pc.prev == o)
    ensures forall o: nat :: o > 0 ==> Weight(Freer(o), to) == Weight(Freer(o), from)
  {
  }

  lemma SwapStep(s: State, s': State, t: nat, c: nat, obj: nat, th: Thread)
    requires Inv(s) && t < |s.threads| && s.threads[t].pc.StoreSwap?
    requires c == s.threads[t].pc.cell && obj == s.threads[t].pc.obj
    requires th == s.threads[t].(pc := StoreUnlock(c, obj, s.threads[t].pc.kind, s.threads[t].pc.prev))
    requires s'.w == s.w && s'.cells == s.cells[c := obj + s.w] && s'.threads == s.threads[t := th]
    requires s'.heap == s.heap && s'.created == s.created && s'.freed == s.freed
    requires !s'.fault && |s'.calls| == |s.calls|
    ensures Inv(s')
  {
    SwapLeaves(s.threads[t], th);
    SwapWords(s, s', t, c);
    assert ThreadOk(s, s.threads[t]) && ThreadOk(s', th);
    SwapLocks(s, s', t, c, th);
    SwapOthers(s, s', t, c);
    SwapCounts(s, s', t, c, obj, s.threads[t].pc.prev, th);
  }

  lemma SwapWords(s: State, s': State, t: nat, c: nat)
    requires Inv(s) && t < |s.threads| && s.threads[t].pc.StoreSwap? && c == s.threads[t].pc.cell
    requires s'.w == s.w && |s'.cells| == |s.cells|
    requires c < |s.cells| ==> s'.cells[c] == s.threads[t].pc.obj + s.w
    ensures c < |s.cells| && Word(s, c) == Fields(s.threads[t].pc.prev, true, 0)
    ensures Word(s', c) == Fields(s.threads[t].pc.obj, true, 0)
  {
    assert ThreadOk(s, s.threads[t]);
    SumMember(Excluder(c), s.threads, t);
    NewWord(s, t);
  }

  lemma SwapLocks(s: State, s': State, t: nat, c: nat, th: Thread)
    requires Inv(s) && t < |s.threads| && c < |s.cells| && s'.w == s.w
    requires |s'.cells| == |s.cells| && s'.cells == s.cells[c := s'.cells[c]] && s'.threads == s.threads[t := th]
    requires Word(s', c).shared == Word(s, c).shared && Word(s', c).exclusive == Word(s, c).exclusive
    requires forall d: nat :: Weight(Sharer(d), th) == Weight(Sharer(d), s.threads[t])
    requires forall d: nat :: Weight(Excluder(d), th) == Weight(Excluder(d), s.threads[t])
    ensures Locks(s')
  {
    SumUpdateAll(s, t, th);
  }

  lemma NewWord(s: State, t: nat)
    requires Inv(s) && t < |s.threads| && s.threads[t].pc.StoreSwap?
    ensures var obj := s.threads[t].pc.obj; Decode(s.w, obj + s.w) == Fields(obj, true, 0)
  {
    var obj := s.threads[t].pc.obj;
    if obj > 0 {
      Referenced(s, t, obj);
    }
    Exchanged(s.w, obj);
  }

  lemma SwapOthers(s: State, s': State, t: nat, c: nat)
    requires Inv(s) && t < |s.threads| && c < |s.cells|
    requires s'.w == s.w && |s'.cells| == |s.cells| && |s'.calls| >= |s.calls|
    requires s'.cells == s.cells[c := s'.cells[c]]
    requires |s'.threads| == |s.threads| && s'.threads == s.threads[t := s'.threads[t]]
    requires Weight(Excluder(c), s.threads[t]) == 1 && Word(s, c).shared == 0 && Word(s', c).shared == 0
    ensures forall u :: 0 <= u < |s.threads| && u != t ==> ThreadOk(s', s'.threads[u])
  {
    forall u | 0 <= u < |s'.threads| && u != t ensures ThreadOk(s', s'.threads[u]) {
      OthersOk(s, s', t, c, u);
    }
  }

  lemma SwapCounts(s: State, s': State, t: nat, c: nat, obj: nat, prev: nat, th: Thread)
    requires Inv(s) && t < |s.threads| && c < |s.cells| && s'.w == s.w
    requires s'.heap == s.heap && s'.created == s.created && s'.freed == s.freed
    requires |s'.cells| == |s.cells| && s'.cells == s.cells[c := s'.cells[c]] && s'.threads == s.threads[t := th]
    requires Word(s', c).pointer == obj && Word(s, c).pointer == prev
    requires forall o: nat :: o > 0 ==>
               Weight(Holder(o), th) + Bit(obj == o) == Weight(Holder(o), s.threads[t]) + Bit(prev == o)
    requires forall o: nat :: o > 0 ==> Weight(Freer(o), th) == Weight(Freer(o), s.threads[t])
    ensures Counts(s')
  {
    SumUpdateAll(s, t, th);
    forall o: nat | o > 0
      ensures && Count(s', o) == CellRefs(s'.w, s'.cells, o) + Sum(Holder(o), s'.threads)
              && Sum(Freer(o), s'.threads) == Bit(o in s'.heap && s'.heap[o] == 0)
    {
      CellRefsUpdate(s.w, s.cells, o, c, s'.cells[c]);
    }
  }

  lemma DerefDecKeeps(s: State, t: nat)
    requires Inv(s) && t < |s.threads| && s.threads[t].pc.DerefDec?
    ensures Inv(Step(s, t))
  {
    var th := s.threads[t];
    var obj := th.pc.obj;
    Referenced(s, t, obj);
    assert th.owned + One(0) == th.owned;
    if s.heap[obj] > 1 {
      DerefDecStep(s, Step(s, t), t, obj, Thread(Idle, th.owned, None));
    } else {
      DerefDecStep(s, Step(s, t), t, obj, th.(pc := DerefDelete(obj)));
    }
  }

  lemma DerefDecStep(s: State, s': State, t: nat, obj: nat, th: Thread)
    requires Inv(s) && t < |s.threads| && obj in s.heap && s.heap[obj] >= 1
    requires s'.w == s.w && s'.cells == s.cells && s'.threads == s.threads[t := th]
    requires s'.heap == s.heap[obj := s.heap[obj] - 1] && s'.created == s.created && s'.freed == s.freed
    requires !s'.fault && |s'.calls| == |s.calls|
    requires ThreadOk(s', th)
    requires forall c :: Weight(Sharer(c), th) == Weight(Sharer(c), s.threads[t])
    requires forall c :: Weight(Excluder(c), th) == Weight(Excluder(c), s.threads[t])
    requires forall o: nat :: o > 0 ==>
               && Weight(Holder(o), th) + Bit(o == obj) == Weight(Holder(o), s.threads[t])
               && Weight(Freer(o), th) == Weight(Freer(o), s.threads[t]) + Bit(o == obj && s.heap[obj] == 1)
    ensures Inv(s')
  {
    assert s'.heap.Keys == s.heap.Keys;
    CountStep(s, s', t, th);
  }

  lemma DerefDeleteKeeps(s: State, t: nat)
    requires Inv(s) && t < |s.threads| && s.threads[t].pc.DerefDelete?
    ensures Inv(Step(s, t))
  {
    var s' := Step(s, t);
    SumMember(Freer(s.threads[t].pc.obj), s.threads, t);
    QuietStep(s, s', t, s'.threads[t]);
  }

  lemma DerefFreeKeeps(s: State, t: nat)
    requires Inv(s) && t < |s.threads| && s.threads[t].pc.DerefFree?
    ensures Inv(Step(s, t))
  {
    var th := s.threads[t];
    var obj := th.pc.obj;
    SumMember(Freer(obj), s.threads, t);
    assert th.owned + One(0) == th.owned;
    DerefFreeStep(s, Step(s, t), t, obj, Thread(Idle, th.owned, None));
  }

  lemma DerefFreeStep(s: State, s': State, t: nat, obj: nat, th: Thread)
    requires Inv(s) && t < |s.threads| && s.threads[t].pc == DerefFree(obj)
    requires obj in s.heap && s.heap[obj] == 0
    requires th == Thread(Idle, s.threads[t].owned, None)
    requires s'.w == s.w && s'.cells == s.cells && s'.threads == s.threads[t := th]
    requires s'.heap == s.heap - {obj} && s'.created == s.created && s'.freed == s.freed + 1
    requires !s'.fault && |s'.calls| == |s.calls|
    ensures Inv(s')
  {
    SumMember(Freer(obj), s.threads, t);
    assert s'.heap.Keys == s.heap.Keys - {obj};
    forall o: nat | o > 0
      ensures Count(s', o) + Weight(Holder(o), s.threads[t]) == Count(s, o) + Weight(Holder(o), th)
      ensures Bit(o in s'.heap && s'.heap[o] == 0) + Weight(Freer(o), s.threads[t])
           == Bit(o in s.heap && s.heap[o] == 0) + Weight(Freer(o), th)
    {
      if o != obj {
        assert Count(s', o) == Count(s, o);
      }
    }
    CountStep(s, s', t, th);
  }

  lemma StepKeeps(s: State, t: nat)
    requires Inv(s) && t < |s.threads|
    ensures Inv(Step(s, t))
  {
    match s.threads[t].pc
    case Idle =>
    case RefRead(_) => RefReadKeeps(s, t);
    case RefCas(_, _) => RefCasKeeps(s, t);
    case RefLoad(_) => RefLoadKeeps(s, t);
    case RefInc(_, _) => RefIncKeeps(s, t);
    case RefRelease(_, _) => RefReleaseKeeps(s, t);
    case AssignInc(_, _) => AssignIncKeeps(s, t);
    case StoreRead(_, _, _) => StoreReadKeeps(s, t);
    case StoreCas(_, _, _, _) => StoreCasKeeps(s, t);
    case StoreDrain(_, _, _, _) => StoreDrainKeeps(s, t);
    case StoreLoad(_, _, _) => StoreLoadKeeps(s, t);
    case StoreSwap(_, _, _, _) => SwapKeeps(s, t);
    case StoreUnlock(_, _, _, _) => UnlockKeeps(s, t);
    case DerefDec(_) => DerefDecKeeps(s, t);
    case DerefDelete(_) => DerefDeleteKeeps(s, t);
    case DerefFree(_) => DerefFreeKeeps(s, t);
  }

  /** An idle thread without references counts for nothing. */
  lemma SpawnSum(p: Probe, threads: seq<Thread>)
    requires p != Holder(0)
    ensures Sum(p, threads + [Thread(Idle, multiset{}, None)]) == Sum(p, threads)
  {
  }

  lemma SpawnKeeps(s: State)
    requires Inv(s)
    ensures Inv(Act(s, Spawn))
  {
    var s' := Act(s, Spawn);
    forall p | p != Holder(0) ensures Sum(p, s'.threads) == Sum(p, s.threads) {
      SpawnSum(p, s.threads);
    }
    forall u | 0 <= u < |s'.threads| ensures ThreadOk(s', s'.threads[u]) {
      assert u < |s.threads| ==> ThreadOk(s, s'.threads[u]);
    }
  }

  /** Nobody is at work on a cell that does not exist yet. */
  lemma {:induction false} NobodyAt(s: State, n: nat)
    requires Inv(s) && n <= |s.threads|
    ensures Sum(Sharer(|s.cells|), s.threads[..n]) == 0 && Sum(Excluder(|s.cells|), s.threads[..n]) == 0
  {
    if n > 0 {
      NobodyAt(s, n - 1);
      assert s.threads[..n][..n - 1] == s.threads[..n - 1];
      assert ThreadOk(s, s.threads[n - 1]);
    }
  }

  lemma NewCellKeeps(s: State)
    requires Inv(s)
    ensures Inv(Act(s, NewCell))
  {
    var s' := Act(s, NewCell);
    DecodeEncode(s.w, Fields(0, false, 0));
    NobodyAt(s, |s.threads|);
    assert s.threads[..|s.threads|] == s.threads;
    forall o: nat | o > 0 ensures CellRefs(s.w, s'.cells, o) == CellRefs(s.w, s.cells, o) {
      assert s'.cells[..|s'.cells| - 1] == s.cells;
    }
    forall u | 0 <= u < |s'.threads| ensures ThreadOk(s', s'.threads[u]) {
      assert ThreadOk(s, s'.threads[u]);
    }
  }

  lemma CreateKeeps(s: State, t: nat, obj: nat)
    requires Inv(s) && Enabled(s, Create(t, obj))
    ensures Inv(Act(s, Create(t, obj)))
  {
    var th := s.threads[t];
    CreateStep(s, Act(s, Create(t, obj)), t, obj, th.(owned := th.owned + multiset{obj}));
  }

  lemma CreateStep(s: State, s': State, t: nat, obj: nat, th: Thread)
    requires Inv(s) && t < |s.threads| && Allocatable(s, obj)
    requires th == s.threads[t].(owned := s.threads[t].owned + multiset{obj})
    requires s' == s.(heap := s.heap[obj := 1], created := s.created + 1, threads := s.threads[t := th])
    ensures Inv(s')
  {
    CreateLocks(s, s', t, th);
    SameThreads(s, s');
    CreateCounts(s, s', t, obj, th);
  }

  lemma CreateLocks(s: State, s': State, t: nat, th: Thread)
    requires s.w >= 2 && Locks(s) && t < |s.threads| && th == s.threads[t].(owned := th.owned)
    requires s'.w == s.w && s'.cells == s.cells && s'.threads == s.threads[t := th]
    ensures Locks(s')
  {
    SumUpdateAll(s, t, th);
  }

  lemma CreateCounts(s: State, s': State, t: nat, obj: nat, th: Thread)
    requires s.w >= 2 && Counts(s) && t < |s.threads| && Allocatable(s, obj)
    requires th == s.threads[t].(owned := s.threads[t].owned + multiset{obj})
    requires s' == s.(heap := s.heap[obj := 1], created := s.created + 1, threads := s.threads[t := th])
    ensures Counts(s')
  {
    assert s'.heap.Keys == s.heap.Keys + {obj};
    forall o: nat | o > 0
      ensures && Count(s', o) == CellRefs(s'.w, s'.cells, o) + Sum(Holder(o), s'.threads)
              && Sum(Freer(o), s'.threads) == Bit(o in s'.heap && s'.heap[o] == 0)
    {
      CreateCount(s, s', t, obj, th, o);
    }
  }

  lemma CreateCount(s: State, s': State, t: nat, obj: nat, th: Thread, o: nat)
    requires s.w >= 2 && Counts(s) && t < |s.threads| && Allocatable(s, obj) && o > 0
    requires th == s.threads[t].(owned := s.threads[t].owned + multiset{obj})
    requires s' == s.(heap := s.heap[obj := 1], created := s.created + 1, threads := s.threads[t := th])
    ensures Count(s', o) == CellRefs(s'.w, s'.cells, o) + Sum(Holder(o), s'.threads)
    ensures Sum(Freer(o), s'.threads) == Bit(o in s'.heap && s'.heap[o] == 0)
  {
    assert Count(s, o) == CellRefs(s.w, s.cells, o) + Sum(Holder(o), s.threads);
    CreateSums(s.threads, t, obj, th, o);
  }

  lemma CreateSums(threads: seq<Thread>, t: nat, obj: nat, th: Thread, o: nat)
    requires t < |threads| && th == threads[t].(owned := threads[t].owned + multiset{obj})
    ensures Sum(Holder(o), threads[t := th]) == Sum(Holder(o), threads) + Bit(o == obj)
    ensures Sum(Freer(o), threads[t := th]) == Sum(Freer(o), threads)
  {
    SumUpdate(Holder(o), threads, t, th);
    SumUpdate(Freer(o), threads, t, th);
  }

  /** Only the bags of owned references differ. */
  lemma SameThreads(s: State, s': State)
    requires Inv(s) && s'.w == s.w && s'.cells == s.cells && s'.calls == s.calls
    requires |s'.threads| == |s.threads|
    requires forall u :: 0 <= u < |s.threads| ==>
               && s'.threads[u].pc == s.threads[u].pc && s'.threads[u].call == s.threads[u].call
               && 0 !in s'.threads[u].owned
               && (s.threads[u].pc.Idle? || s.threads[u].owned <= s'.threads[u].owned)
    ensures forall u :: 0 <= u < |s'.threads| ==> ThreadOk(s', s'.threads[u])
  {
  }

  lemma DuplicateKeeps(s: State, t: nat, obj: nat)
    requires Inv(s) && Enabled(s, Duplicate(t, obj))
    ensures Inv(Act(s, Duplicate(t, obj)))
  {
    Referenced(s, t, obj);
    IncrementStep(s, Act(s, Duplicate(t, obj)), t, obj,
                  s.threads[t].(owned := s.threads[t].owned + multiset{obj}));
  }

  lemma DropKeeps(s: State, t: nat, obj: nat)
    requires Inv(s) && Enabled(s, Drop(t, obj))
    ensures Inv(Act(s, Drop(t, obj)))
  {
    DropStep(s, Act(s, Drop(t, obj)), t, obj, Thread(DerefDec(obj), s.threads[t].owned - multiset{obj}, None));
  }

  lemma DropStep(s: State, s': State, t: nat, obj: nat, th: Thread)
    requires Inv(s) && IsIdle(s, t) && obj in s.threads[t].owned
    requires th == Thread(DerefDec(obj), s.threads[t].owned - multiset{obj}, None)
    requires s' == s.(threads := s.threads[t := th])
    ensures Inv(s')
  {
    DropWeights(s.threads[t], th, obj);
    CountStep(s, s', t, th);
  }

  lemma DropWeights(from: Thread, to: Thread, obj: nat)
    requires from.pc.Idle? && obj in from.owned && to == Thread(DerefDec(obj), from.owned - multiset{obj}, None)
    ensures forall o: nat :: o > 0 ==> Weight(Holder(o), to) == Weight(Holder(o), from)
    ensures forall o: nat :: o > 0 ==> Weight(Freer(o), to) == Weight(Freer(o), from)
    ensures forall c: nat :: Weight(Sharer(c), to) == Weight(Sharer(c), from)
    ensures forall c: nat :: Weight(Excluder(c), to) == Weight(Excluder(c), from)
  {
  }

  lemma CallLoadKeeps(s: State, t: nat, cell: nat)
    requires Inv(s) && Enabled(s, CallLoad(t, cell))
    ensures Inv(Act(s, CallLoad(t, cell)))
  {
    assert s.threads[t].owned - One(0) == s.threads[t].owned;
    CountStep(s, Act(s, CallLoad(t, cell)), t, Thread(RefRead(cell), s.threads[t].owned, Some(|s.calls|)));
  }

  lemma CallStoreKeeps(s: State, t: nat, cell: nat, obj: nat, kind: StoreKind)
    requires Inv(s) && Enabled(s, CallStore(t, cell, obj, kind))
    ensures Inv(Act(s, CallStore(t, cell, obj, kind)))
  {
    var owned, pc := s.threads[t].owned, StartStore(cell, obj, kind);
    var given := if kind.Move? then obj else 0;
    assert given == 0 ==> owned - One(given) == owned;
    CallStoreStep(s, Act(s, CallStore(t, cell, obj, kind)), t, Thread(pc, owned - One(given), Some(|s.calls|)));
  }

  lemma CallStoreStep(s: State, s': State, t: nat, th: Thread)
    requires Inv(s) && IsIdle(s, t)
    requires s'.w == s.w && s'.cells == s.cells && s'.threads == s.threads[t := th]
    requires s'.heap == s.heap && s'.created == s.created && s'.freed == s.freed
    requires !s'.fault && |s'.calls| == |s.calls| + 1
    requires ThreadOk(s', th) && (th.pc.AssignInc? || th.pc.StoreRead?)
    requires forall o: nat :: o > 0 ==> Weight(Holder(o), th) == Weight(Holder(o), s.threads[t])
    ensures Inv(s')
  {
    CountStep(s, s', t, th);
  }

  lemma HandOverKeeps(s: State, t: nat, u: nat, obj: nat)
    requires Inv(s) && Enabled(s, HandOver(t, u, obj))
    ensures Inv(Act(s, HandOver(t, u, obj)))
  {
    HandOverStep(s, Act(s, HandOver(t, u, obj)), t, u, obj,
                 s.threads[t].(owned := s.threads[t].owned - multiset{obj}),
                 s.threads[u].(owned := s.threads[u].owned + multiset{obj}));
  }

  lemma HandOverStep(s: State, s': State, t: nat, u: nat, obj: nat, giver: Thread, taker: Thread)
    requires Inv(s) && t < |s.threads| && u < |s.threads| && t != u
    requires s.threads[t].pc.Idle? && obj in s.threads[t].owned
    requires giver == s.threads[t].(owned := s.threads[t].owned - multiset{obj})
    requires taker == s.threads[u].(owned := s.threads[u].owned + multiset{obj})
    requires s' == s.(threads := s.threads[t := giver][u := taker])
    ensures Inv(s')
  {
    SameThreads(s, s');
    forall p ensures Sum(p, s'.threads) == Sum(p, s.threads) {
      HandOverSum(p, s.threads, t, u, obj, giver, taker);
    }
  }

  lemma HandOverSum(p: Probe, threads: seq<Thread>, t: nat, u: nat, obj: nat, giver: Thread, taker: Thread)
    requires t < |threads| && u < |threads| && t != u && obj in threads[t].owned
    requires giver == threads[t].(owned := threads[t].owned - multiset{obj})
    requires taker == threads[u].(owned := threads[u].owned + multiset{obj})
    ensures Sum(p, threads[t := giver][u := taker]) == Sum(p, threads)
  {
    SumUpdate(p, threads, t, giver);
    SumUpdate(p, threads[t := giver], u, taker);
    assert threads[t := giver][u] == threads[u];
    HandOverWeight(p, threads[t], threads[u], obj, giver, taker);
  }

  lemma HandOverWeight(p: Probe, from: Thread, to: Thread, obj: nat, giver: Thread, taker: Thread)
    requires obj in from.owned
    requires giver == from.(owned := from.owned - multiset{obj}) && taker == to.(owned := to.owned + multiset{obj})
    ensures Weight(p, giver) + Weight(p, taker) == Weight(p, from) + Weight(p, to)
  {
  }

  lemma ActKeeps(s: State, a: Action)
    requires Inv(s) && Enabled(s, a)
    ensures Inv(Act(s, a))
  {
    match a
    case Spawn => SpawnKeeps(s);
    case NewCell => NewCellKeeps(s);
    case Create(t, obj) => CreateKeeps(s, t, obj);
    case Duplicate(t, obj) => DuplicateKeeps(s, t, obj);
    case Drop(t, obj) => DropKeeps(s, t, obj);
    case HandOver(t, u, obj) => HandOverKeeps(s, t, u, obj);
    case CallLoad(t, cell) => CallLoadKeeps(s, t, cell);
    case CallStore(t, cell, obj, kind) => CallStoreKeeps(s, t, cell, obj, kind);
    case Run(t) => StepKeeps(s, t);
  }

  lemma NextKeeps(s: State, a: Action)
    requires Inv(s) && Enabled(s, a)
    ensures Inv(Next(s, a))
  {
    var s1 := Act(s, a);
    ActKeeps(s, a);
    ClockOnly(s1, s.clock + 1);
    assert Next(s, a) == s1.(clock := s.clock + 1);
  }

  lemma ClockOnly(s: State, clock: nat)
    requires Inv(s)
    ensures Inv(s.(clock := clock))
  {
  }

  /** In every state of every run the invariant holds; in particular no step has
      ever violated an assertion of the source or touched unallocated memory. */
  lemma {:induction false} RunsAreSafe(run: seq<State>, actions: seq<Action>, n: nat)
    requires Execution(run, actions) && n < |run|
    ensures Inv(run[n])
  {
    if n == 0 {
      assert |run[0].heap| == 0;
    } else {
      RunsAreSafe(run, actions, n - 1);
      NextKeeps(run[n - 1], actions[n - 1]);
    }
  }
}
