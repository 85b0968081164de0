/**
 What the invariant means for the callers of the atomic object references:
 who writes the pointer, that references keep objects alive, and that nothing
 leaks once everybody is done.
 */
module ObjectRefTheorems {
  import opened LockWord
  import opened ObjectRef
  import opened ObjectRefSafety

  /** The exclusive owner of a cell has waited for its sharers to leave. */
  predicate Drained(pc: Pc, c: nat) {
    (pc.StoreLoad? || pc.StoreSwap? || pc.StoreUnlock?) && pc.cell == c
  }

  /** The lock protocol of one cell, read off its word. */
  lemma LockMeaning(run: seq<State>, actions: seq<Action>, n: nat, c: nat, t: nat)
    requires Execution(run, actions) && n < |run|
    requires c < |run[n].cells| && t < |run[n].threads|
    ensures var s := run[n];
      && s.w >= 2
      && Word(s, c).shared == Sum(Sharer(c), s.threads) <= SharedMax(s.w)
      && (Word(s, c).exclusive <==> Sum(Excluder(c), s.threads) == 1)
      && Sum(Excluder(c), s.threads) <= 1
      && (Drained(s.threads[t].pc, c) ==> Sum(Sharer(c), s.threads) == 0 && Word(s, c).exclusive)
  {
    RunsAreSafe(run, actions, n);
    SumMember(Excluder(c), run[n].threads, t);
  }

  /** The step of thread t is the exchange of the exclusive holder of cell c. */
  ghost predicate Exchanging(s: State, t: nat, c: nat) {
    t < |s.threads| && s.threads[t].pc.StoreSwap? && s.threads[t].pc.cell == c
  }

  lemma AcquireWord(s: State, t: nat, c: nat)
    requires Inv(s) && t < |s.threads| && c < |s.cells| && s.threads[t].pc.RefCas?
    ensures var s' := Step(s, t);
      s'.w == s.w && |s'.cells| == |s.cells| && Word(s', c).pointer == Word(s, c).pointer
  {
    var RefCas(d, seen) := s.threads[t].pc;
    if s.cells[d] == seen {
      AddShared(s.w, seen);
    }
  }

  lemma ReleaseWord(s: State, t: nat, c: nat)
    requires Inv(s) && t < |s.threads| && c < |s.cells| && s.threads[t].pc.RefRelease?
    ensures var s' := Step(s, t);
      s'.w == s.w && |s'.cells| == |s.cells| && Word(s', c).pointer == Word(s, c).pointer
  {
    var d := s.threads[t].pc.cell;
    SumMember(Sharer(d), s.threads, t);
    DropShared(s.w, s.cells[d]);
  }

  lemma ExcludeWord(s: State, t: nat, c: nat)
    requires Inv(s) && t < |s.threads| && c < |s.cells| && s.threads[t].pc.StoreCas?
    ensures var s' := Step(s, t);
      s'.w == s.w && |s'.cells| == |s.cells| && Word(s', c).pointer == Word(s, c).pointer
  {
    var StoreCas(d, _, _, seen) := s.threads[t].pc;
    assert ThreadOk(s, s.threads[t]);
    if s.cells[d] == seen {
      SetExclusive(s.w, seen);
      assert Step(s, t).cells == s.cells[d := seen + s.w];
    }
  }

  lemma UnlockWord(s: State, t: nat, c: nat)
    requires Inv(s) && t < |s.threads| && c < |s.cells| && s.threads[t].pc.StoreUnlock?
    ensures var s' := Step(s, t);
      s'.w == s.w && |s'.cells| == |s.cells| && Word(s', c).pointer == Word(s, c).pointer
  {
    var d := s.threads[t].pc.cell;
    SumMember(Excluder(d), s.threads, t);
    ResetExclusive(s.w, s.cells[d]);
  }

  lemma SwapWord(s: State, t: nat, c: nat)
    requires Inv(s) && t < |s.threads| && c < |s.cells| && s.threads[t].pc.StoreSwap?
    ensures var s' := Step(s, t);
      && s'.w == s.w && |s'.cells| == |s.cells|
      && (s.threads[t].pc.cell != c ==> s'.cells[c] == s.cells[c])
      && (s.threads[t].pc.cell == c ==>
            Word(s, c) == Fields(s.threads[t].pc.prev, true, 0) && Word(s', c) == Fields(s.threads[t].pc.obj, true, 0))
  {
    SwapIs(s, t);
    SwapWords(s, Step(s, t), t, s.threads[t].pc.cell);
  }

  lemma SwapIs(s: State, t: nat)
    requires Inv(s) && t < |s.threads| && s.threads[t].pc.StoreSwap?
    ensures var StoreSwap(c, obj, _, _) := s.threads[t].pc;
      c < |s.cells| && Step(s, t).w == s.w && Step(s, t).cells == s.cells[c := obj + s.w]
  {
    assert ThreadOk(s, s.threads[t]);
  }

  predicate WritesWord(pc: Pc) {
    pc.RefCas? || pc.RefRelease? || pc.StoreCas? || pc.StoreSwap? || pc.StoreUnlock?
  }

  lemma OtherSteps(s: State, t: nat)
    requires s.w >= 2 && t < |s.threads| && !WritesWord(s.threads[t].pc)
    ensures Step(s, t).w == s.w && Step(s, t).cells == s.cells
  {
    var pc := s.threads[t].pc;
    if pc.DerefDec? || pc.DerefDelete? || pc.DerefFree? {
      DerefSteps(s, t);
    } else if pc.StoreRead? || pc.StoreDrain? || pc.StoreLoad? || pc.AssignInc? {
      StoreSteps(s, t);
    }
  }

  lemma DerefSteps(s: State, t: nat)
    requires s.w >= 2 && t < |s.threads|
    requires s.threads[t].pc.DerefDec? || s.threads[t].pc.DerefDelete? || s.threads[t].pc.DerefFree?
    ensures Step(s, t).w == s.w && Step(s, t).cells == s.cells
  {
  }

  lemma StoreSteps(s: State, t: nat)
    requires s.w >= 2 && t < |s.threads|
    requires var pc := s.threads[t].pc; pc.StoreRead? || pc.StoreDrain? || pc.StoreLoad? || pc.AssignInc?
    ensures Step(s, t).w == s.w && Step(s, t).cells == s.cells
  {
  }

  /** How a step changes the word of any cell. */
  lemma StepWord(s: State, t: nat, c: nat)
    requires Inv(s) && t < |s.threads| && c < |s.cells|
    ensures var s' := Step(s, t);
      && s'.w == s.w && |s'.cells| == |s.cells|
      && (!Exchanging(s, t, c) ==> Word(s', c).pointer == Word(s, c).pointer)
      && (Exchanging(s, t, c) ==>
            Word(s, c) == Fields(s.threads[t].pc.prev, true, 0) && Word(s', c) == Fields(s.threads[t].pc.obj, true, 0))
  {
    match s.threads[t].pc
    case RefCas(_, _) => AcquireWord(s, t, c);
    case RefRelease(_, _) => ReleaseWord(s, t, c);
    case StoreCas(_, _, _, _) => ExcludeWord(s, t, c);
    case StoreSwap(_, _, _, _) => SwapWord(s, t, c);
    case StoreUnlock(_, _, _, _) => UnlockWord(s, t, c);
    case _ => OtherSteps(s, t);
  }

  /** The pointer of a cell changes only in the exchange of its exclusive holder,
      at which moment nobody shares the lock, so no lock count is overwritten. */
  lemma PointerWrites(run: seq<State>, actions: seq<Action>, n: nat, c: nat)
    requires Execution(run, actions) && n < |actions| && c < |run[n].cells|
    ensures run[n].w >= 2 && run[n + 1].w == run[n].w && c < |run[n + 1].cells|
    ensures var s, s' := run[n], run[n + 1];
      Word(s', c).pointer != Word(s, c).pointer ==>
        && actions[n].Run? && Exchanging(s, actions[n].t, c)
        && Sum(Excluder(c), s.threads) == 1 && Sum(Sharer(c), s.threads) == 0
        && Word(s', c) == Word(s, c).(pointer := s.threads[actions[n].t].pc.obj)
  {
    var s, a := run[n], actions[n];
    RunsAreSafe(run, actions, n);
    if a.Run? {
      StepWord(s, a.t, c);
    }
  }

  /** A reference that a thread owns, or that a cell holds, keeps its object
      allocated with a positive count. */
  lemma ReferencesKeepAlive(run: seq<State>, actions: seq<Action>, n: nat, t: nat, c: nat, obj: nat)
    requires Execution(run, actions) && n < |run| && t < |run[n].threads| && c < |run[n].cells|
    requires run[n].w >= 2 && obj > 0
    requires obj in run[n].threads[t].owned || Word(run[n], c).pointer == obj
    ensures obj in run[n].heap && run[n].heap[obj] >= 1
    ensures run[n].heap[obj] == CellRefs(run[n].w, run[n].cells, obj) + Sum(Holder(obj), run[n].threads)
  {
    RunsAreSafe(run, actions, n);
    if obj in run[n].threads[t].owned {
      Referenced(run[n], t, obj);
    } else {
      Stored(run[n], c);
    }
  }

  /** Nobody is in the middle of anything and nobody holds a reference. */
  ghost predicate AllDone(s: State) {
    && (forall t :: 0 <= t < |s.threads| ==> s.threads[t].pc.Idle? && s.threads[t].owned == multiset{})
    && (forall c :: 0 <= c < |s.cells| ==> s.cells[c] == 0)
  }

  lemma {:induction false} NoWeight(p: Probe, threads: seq<Thread>)
    requires forall t :: 0 <= t < |threads| ==> Weight(p, threads[t]) == 0
    ensures Sum(p, threads) == 0
  {
    if threads != [] {
      NoWeight(p, threads[..|threads| - 1]);
    }
  }

  lemma {:induction false} NoCellRefs(w: nat, cells: seq<nat>, obj: nat)
    requires w >= 2 && obj > 0 && forall c :: 0 <= c < |cells| ==> cells[c] == 0
    ensures CellRefs(w, cells, obj) == 0
  {
    if cells != [] {
      NoCellRefs(w, cells[..|cells| - 1], obj);
    }
  }

  /** When every cell is cleared and every reference given back, every object
      ever created has been freed. */
  lemma NothingLeaks(run: seq<State>, actions: seq<Action>, n: nat)
    requires Execution(run, actions) && n < |run| && AllDone(run[n])
    ensures run[n].heap == map[] && run[n].freed == run[n].created
  {
    var s := run[n];
    RunsAreSafe(run, actions, n);
    if obj :| obj in s.heap {
      NoWeight(Holder(obj), s.threads);
      NoWeight(Freer(obj), s.threads);
      NoCellRefs(s.w, s.cells, obj);
      assert false;
    }
  }

  predicate TouchesCount(pc: Pc) {
    pc.RefInc? || pc.AssignInc? || pc.DerefDec?
  }

  lemma CountingHeap(s: State, t: nat)
    requires s.w >= 2 && t < |s.threads| && TouchesCount(s.threads[t].pc)
    ensures s.heap.Keys <= Step(s, t).heap.Keys
  {
  }

  lemma SameHeap(s: State, t: nat)
    requires s.w >= 2 && t < |s.threads| && !s.threads[t].pc.DerefFree? && !TouchesCount(s.threads[t].pc)
    ensures Step(s, t).heap == s.heap
  {
  }

  lemma StepHeap(s: State, t: nat)
    requires s.w >= 2 && t < |s.threads| && !s.threads[t].pc.DerefFree?
    ensures s.heap.Keys <= Step(s, t).heap.Keys
  {
    if TouchesCount(s.threads[t].pc) {
      CountingHeap(s, t);
    } else {
      SameHeap(s, t);
    }
  }

  lemma FreeHeap(s: State, t: nat)
    requires Inv(s) && t < |s.threads| && s.threads[t].pc.DerefFree?
    ensures var obj := s.threads[t].pc.obj;
      && Step(s, t).heap == s.heap - {obj} && Step(s, t).freed == s.freed + 1
      && CellRefs(s.w, s.cells, obj) == 0 && Sum(Holder(obj), s.threads) == 0 && Sum(Freer(obj), s.threads) == 1
  {
    var obj := s.threads[t].pc.obj;
    LastGone(s, t, obj);
    SameStep(s, t, obj);
  }

  lemma LastGone(s: State, t: nat, obj: nat)
    requires Inv(s) && t < |s.threads| && s.threads[t].pc == DerefFree(obj)
    ensures obj in s.heap && s.heap[obj] == 0
    ensures CellRefs(s.w, s.cells, obj) == 0 && Sum(Holder(obj), s.threads) == 0 && Sum(Freer(obj), s.threads) == 1
  {
    SumMember(Freer(obj), s.threads, t);
    assert Count(s, obj) == CellRefs(s.w, s.cells, obj) + Sum(Holder(obj), s.threads);
  }

  lemma SameStep(s: State, t: nat, obj: nat)
    requires s.w >= 2 && t < |s.threads| && s.threads[t].pc == DerefFree(obj) && obj in s.heap && s.heap[obj] == 0
    ensures Step(s, t).heap == s.heap - {obj} && Step(s, t).freed == s.freed + 1
  {
  }

  lemma ActHeap(s: State, a: Action)
    requires Inv(s) && Enabled(s, a) && !a.Run?
    ensures s.heap.Keys <= Act(s, a).heap.Keys
  {
  }

  /** An object leaves the heap only by the free step of the thread that took
      its last reference, when no cell and no thread holds it any more. */
  lemma FreedOnce(run: seq<State>, actions: seq<Action>, n: nat, obj: nat)
    requires Execution(run, actions) && n < |actions|
    requires obj in run[n].heap && obj !in run[n + 1].heap
    ensures var s := run[n];
      && s.w >= 2 && actions[n].Run? && actions[n].t < |s.threads|
      && s.threads[actions[n].t].pc == DerefFree(obj)
      && CellRefs(s.w, s.cells, obj) == 0 && Sum(Holder(obj), s.threads) == 0 && Sum(Freer(obj), s.threads) == 1
      && run[n + 1].freed == s.freed + 1
  {
    var s, a := run[n], actions[n];
    RunsAreSafe(run, actions, n);
    assert run[n + 1].heap.Keys == Act(s, a).heap.Keys;
    if !a.Run? {
      ActHeap(s, a);
      assert false;
    } else if !s.threads[a.t].pc.DerefFree? {
      StepHeap(s, a.t);
      assert false;
    } else {
      FreeHeap(s, a.t);
    }
  }
}
