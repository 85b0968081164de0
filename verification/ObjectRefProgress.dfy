/**
 The spinning of the atomic object references never locks everybody out: whatever
 has happened, some thread can take a step that brings all calls nearer to their
 end, so from every state of every run all threads can finish what they are doing.
 */
module ObjectRefProgress {
  import opened LockWord
  import opened ObjectRef
  import opened ObjectRefSafety

  /** The stores to a lock word that a thread has still to make. */
  function Writes(pc: Pc): nat {
    match pc
    case RefRead(_) => 2
    case RefCas(_, _) => 2
    case RefLoad(_) => 1
    case RefInc(_, _) => 1
    case RefRelease(_, _) => 1
    case AssignInc(_, _) => 3
    case StoreRead(_, _, _) => 3
    case StoreCas(_, _, _, _) => 3
    case StoreDrain(_, _, _, _) => 2
    case StoreLoad(_, _, _) => 2
    case StoreSwap(_, _, _, _) => 2
    case StoreUnlock(_, _, _, _) => 1
    case _ => 0
  }

  function WordAt(cells: seq<nat>, c: nat): nat {
    if c < |cells| then cells[c] else 0
  }

  /** The steps to the next such store, if nobody else makes one. */
  function Distance(w: nat, cells: seq<nat>, pc: Pc): nat
    requires w >= 2
  {
    match pc
    case RefRead(_) => 3
    case RefCas(c, seen) => if WordAt(cells, c) == seen then 2 else 4
    case RefLoad(_) => 2
    case RefInc(_, _) => 1
    case AssignInc(_, _) => 4
    case StoreRead(_, _, _) => 3
    case StoreCas(c, _, _, seen) => if WordAt(cells, c) == seen then 2 else 4
    case StoreDrain(_, _, _, seen) => if Decode(w, seen).shared == 0 then 2 else 3
    case StoreLoad(_, _, _) => 1
    case DerefDec(_) => 3
    case DerefDelete(_) => 2
    case DerefFree(_) => 1
    case _ => 0
  }

  function AllWrites(threads: seq<Thread>): nat {
    if threads == [] then 0 else AllWrites(threads[..|threads| - 1]) + Writes(threads[|threads| - 1].pc)
  }

  function AllDistances(w: nat, cells: seq<nat>, threads: seq<Thread>): nat
    requires w >= 2
  {
    if threads == [] then 0
    else AllDistances(w, cells, threads[..|threads| - 1]) + Distance(w, cells, threads[|threads| - 1].pc)
  }

  /** The calls are nearer to their end. */
  ghost predicate Nearer(s: State, s': State) {
    && s.w >= 2 && s'.w == s.w
    && (AllWrites(s'.threads) < AllWrites(s.threads)
        || (AllWrites(s'.threads) == AllWrites(s.threads)
            && AllDistances(s.w, s'.cells, s'.threads) < AllDistances(s.w, s.cells, s.threads)))
  }

  lemma {:induction false} WritesUpdate(threads: seq<Thread>, t: nat, th: Thread)
    requires t < |threads|
    ensures AllWrites(threads[t := th]) == AllWrites(threads) - Writes(threads[t].pc) + Writes(th.pc)
  {
    var last := |threads| - 1;
    if t < last {
      WritesUpdate(threads[..last], t, th);
      assert threads[t := th][..last] == threads[..last][t := th];
    } else {
      assert threads[t := th][..last] == threads[..last];
    }
  }

  lemma {:induction false} DistancesUpdate(w: nat, cells: seq<nat>, threads: seq<Thread>, t: nat, th: Thread)
    requires w >= 2 && t < |threads|
    ensures AllDistances(w, cells, threads[t := th])
         == AllDistances(w, cells, threads) - Distance(w, cells, threads[t].pc) + Distance(w, cells, th.pc)
  {
    var last := |threads| - 1;
    if t < last {
      DistancesUpdate(w, cells, threads[..last], t, th);
      assert threads[t := th][..last] == threads[..last][t := th];
    } else {
      assert threads[t := th][..last] == threads[..last];
    }
  }

  /** A thread that spins until somebody else has released a lock. */
  ghost predicate Spins(s: State, pc: Pc)
    requires s.w >= 2
  {
    match pc
    case RefRead(c) => c < |s.cells| && Lock(s.w, s.cells[c]) >= SharedMax(s.w)
    case StoreRead(c, _, _) => c < |s.cells| && Word(s, c).exclusive
    case StoreDrain(c, _, _, seen) => c < |s.cells| && Decode(s.w, seen).shared != 0 && Word(s, c).shared != 0
    case _ => false
  }

  lemma {:induction false} SomeThread(p: Probe, threads: seq<Thread>) returns (t: nat)
    requires Sum(p, threads) > 0
    ensures t < |threads| && Weight(p, threads[t]) > 0
  {
    t := |threads| - 1;
    if Weight(p, threads[t]) == 0 {
      t := SomeThread(p, threads[..t]);
    }
  }

  /** Who has to wait for sharers can wait for one that does not wait itself. */
  lemma SomeSharer(s: State, c: nat) returns (t: nat)
    requires Inv(s) && c < |s.cells| && Word(s, c).shared != 0
    ensures t < |s.threads| && !s.threads[t].pc.Idle? && !Spins(s, s.threads[t].pc)
  {
    t := SomeThread(Sharer(c), s.threads);
  }

  lemma SomeExcluder(s: State, c: nat) returns (t: nat)
    requires Inv(s) && c < |s.cells| && Word(s, c).exclusive
    ensures t < |s.threads| && !s.threads[t].pc.Idle? && !Spins(s, s.threads[t].pc)
  {
    t := SomeThread(Excluder(c), s.threads);
    if Spins(s, s.threads[t].pc) {
      t := SomeSharer(s, c);
    }
  }

  /** They do not all spin. */
  lemma SomebodyMoves(s: State, t: nat) returns (u: nat)
    requires Inv(s) && t < |s.threads| && !s.threads[t].pc.Idle?
    ensures u < |s.threads| && !s.threads[u].pc.Idle? && !Spins(s, s.threads[u].pc)
  {
    u := t;
    if Spins(s, s.threads[t].pc) {
      var c := s.threads[t].pc.cell;
      if Word(s, c).exclusive {
        u := SomeExcluder(s, c);
      } else {
        u := SomeSharer(s, c);
      }
    }
  }

  /** A step with which a thread stores to a lock word. */
  lemma StoreNearer(s: State, s': State, t: nat)
    requires s.w >= 2 && s'.w == s.w && t < |s.threads| && |s'.threads| == |s.threads|
    requires s'.threads == s.threads[t := s'.threads[t]] && Writes(s'.threads[t].pc) < Writes(s.threads[t].pc)
    ensures Nearer(s, s')
  {
    WritesUpdate(s.threads, t, s'.threads[t]);
  }

  /** And any other step. */
  lemma MoveNearer(s: State, s': State, t: nat)
    requires s.w >= 2 && s'.w == s.w && t < |s.threads| && |s'.threads| == |s.threads| && s'.cells == s.cells
    requires s'.threads == s.threads[t := s'.threads[t]] && Writes(s'.threads[t].pc) == Writes(s.threads[t].pc)
    requires Distance(s.w, s.cells, s'.threads[t].pc) < Distance(s.w, s.cells, s.threads[t].pc)
    ensures Nearer(s, s')
  {
    WritesUpdate(s.threads, t, s'.threads[t]);
    DistancesUpdate(s.w, s.cells, s.threads, t, s'.threads[t]);
  }

  lemma LoadNearer(s: State, t: nat)
    requires Inv(s) && t < |s.threads| && !Spins(s, s.threads[t].pc)
    requires s.threads[t].pc.RefRead? || s.threads[t].pc.RefCas?
    ensures Nearer(s, Next(s, Run(t)))
  {
    var s' := Next(s, Run(t));
    assert ThreadOk(s, s.threads[t]);
    if s.threads[t].pc.RefCas? && s.cells[s.threads[t].pc.cell] == s.threads[t].pc.seen {
      StoreNearer(s, s', t);
    } else {
      MoveNearer(s, s', t);
    }
  }

  lemma ReferenceNearer(s: State, t: nat)
    requires Inv(s) && t < |s.threads| && (s.threads[t].pc.RefLoad? || s.threads[t].pc.RefInc?)
    ensures Nearer(s, Next(s, Run(t)))
  {
    assert ThreadOk(s, s.threads[t]);
    MoveNearer(s, Next(s, Run(t)), t);
  }

  lemma ReleaseNearer(s: State, t: nat)
    requires Inv(s) && t < |s.threads| && s.threads[t].pc.RefRelease?
    ensures Nearer(s, Next(s, Run(t)))
  {
    assert ThreadOk(s, s.threads[t]);
    SumMember(Sharer(s.threads[t].pc.cell), s.threads, t);
    StoreNearer(s, Next(s, Run(t)), t);
  }

  lemma AcquireNearer(s: State, t: nat)
    requires Inv(s) && t < |s.threads| && !Spins(s, s.threads[t].pc)
    requires s.threads[t].pc.AssignInc? || s.threads[t].pc.StoreRead?
    ensures Nearer(s, Next(s, Run(t)))
  {
    assert ThreadOk(s, s.threads[t]);
    MoveNearer(s, Next(s, Run(t)), t);
  }

  lemma ExcludeNearer(s: State, t: nat)
    requires Inv(s) && t < |s.threads| && s.threads[t].pc.StoreCas?
    ensures Nearer(s, Next(s, Run(t)))
  {
    var s' := Next(s, Run(t));
    assert ThreadOk(s, s.threads[t]);
    if s.cells[s.threads[t].pc.cell] == s.threads[t].pc.seen {
      StoreNearer(s, s', t);
    } else {
      MoveNearer(s, s', t);
    }
  }

  lemma DrainNearer(s: State, t: nat)
    requires Inv(s) && t < |s.threads| && !Spins(s, s.threads[t].pc)
    requires s.threads[t].pc.StoreDrain? || s.threads[t].pc.StoreLoad?
    ensures Nearer(s, Next(s, Run(t)))
  {
    assert ThreadOk(s, s.threads[t]);
    MoveNearer(s, Next(s, Run(t)), t);
  }

  lemma SwapNearer(s: State, t: nat)
    requires Inv(s) && t < |s.threads| && s.threads[t].pc.StoreSwap?
    ensures Nearer(s, Next(s, Run(t)))
  {
    assert ThreadOk(s, s.threads[t]);
    StoreNearer(s, Next(s, Run(t)), t);
  }

  lemma UnlockNearer(s: State, t: nat)
    requires Inv(s) && t < |s.threads| && s.threads[t].pc.StoreUnlock?
    ensures Nearer(s, Next(s, Run(t)))
  {
    assert ThreadOk(s, s.threads[t]);
    SumMember(Excluder(s.threads[t].pc.cell), s.threads, t);
    StoreNearer(s, Next(s, Run(t)), t);
  }

  lemma DropNearer(s: State, t: nat)
    requires Inv(s) && t < |s.threads|
    requires s.threads[t].pc.DerefDec?
    ensures Nearer(s, Next(s, Run(t)))
  {
    assert ThreadOk(s, s.threads[t]);
    Referenced(s, t, s.threads[t].pc.obj);
    MoveNearer(s, Next(s, Run(t)), t);
  }

  lemma FreeNearer(s: State, t: nat)
    requires Inv(s) && t < |s.threads| && (s.threads[t].pc.DerefDelete? || s.threads[t].pc.DerefFree?)
    ensures Nearer(s, Next(s, Run(t)))
  {
    assert ThreadOk(s, s.threads[t]);
    SumMember(Freer(s.threads[t].pc.obj), s.threads, t);
    MoveNearer(s, Next(s, Run(t)), t);
  }

  /** Each step of a thread that does not spin brings the calls nearer to their end. */
  lemma StepNearer(s: State, t: nat)
    requires Inv(s) && Enabled(s, Run(t)) && !Spins(s, s.threads[t].pc)
    ensures Nearer(s, Next(s, Run(t)))
  {
    var pc := s.threads[t].pc;
    if pc.RefRead? || pc.RefCas? {
      LoadNearer(s, t);
    } else if pc.RefLoad? || pc.RefInc? {
      ReferenceNearer(s, t);
    } else if pc.RefRelease? {
      ReleaseNearer(s, t);
    } else if pc.AssignInc? || pc.StoreRead? {
      AcquireNearer(s, t);
    } else if pc.StoreCas? {
      ExcludeNearer(s, t);
    } else if pc.StoreDrain? || pc.StoreLoad? {
      DrainNearer(s, t);
    } else if pc.StoreSwap? {
      SwapNearer(s, t);
    } else if pc.StoreUnlock? {
      UnlockNearer(s, t);
    } else if pc.DerefDec? {
      DropNearer(s, t);
    } else {
      FreeNearer(s, t);
    }
  }

  ghost predicate AllIdle(s: State) {
    forall t :: 0 <= t < |s.threads| ==> s.threads[t].pc.Idle?
  }

  lemma {:induction false} FinishAll(run: seq<State>, actions: seq<Action>)
      returns (run': seq<State>, actions': seq<Action>)
    requires Execution(run, actions) && Inv(run[|actions|])
    ensures Execution(run', actions') && run <= run' && actions <= actions'
    ensures forall i :: |actions| <= i < |actions'| ==> actions'[i].Run?
    ensures AllIdle(run'[|actions'|])
    decreases AllWrites(run[|actions|].threads),
              AllDistances(run[|actions|].w, run[|actions|].cells, run[|actions|].threads)
  {
    var s := run[|actions|];
    run', actions' := run, actions;
    if t: nat :| t < |s.threads| && !s.threads[t].pc.Idle? {
      var u := SomebodyMoves(s, t);
      StepNearer(s, u);
      NextKeeps(s, Run(u));
      run', actions' := run + [Next(s, Run(u))], actions + [Run(u)];
      OneMore(run, actions, Run(u));
      run', actions' := FinishAll(run', actions');
    }
  }

  /** From every state of every run, the threads can finish all calls that are under
      way, whatever they are waiting for. */
  lemma EverybodyFinishes(run: seq<State>, actions: seq<Action>) returns (run': seq<State>, actions': seq<Action>)
    requires Execution(run, actions)
    ensures Execution(run', actions') && run <= run' && actions <= actions'
    ensures forall i :: |actions| <= i < |actions'| ==> actions'[i].Run?
    ensures AllIdle(run'[|actions'|])
  {
    RunsAreSafe(run, actions, |actions|);
    run', actions' := FinishAll(run, actions);
  }

  lemma OneMore(run: seq<State>, actions: seq<Action>, a: Action)
    requires Execution(run, actions) && run[|actions|].w >= 2 && Enabled(run[|actions|], a)
    ensures Execution(run + [Next(run[|actions|], a)], actions + [a])
  {
  }
}
