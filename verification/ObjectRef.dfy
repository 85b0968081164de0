/**
 Atomic object references and reference-counted objects as a state machine.

 Any number of threads run KphAtomicReferenceObject, KphAtomicAssignObjectReference,
 KphAtomicMoveObjectReference, KphReferenceObject and KphDereferenceObject over any
 number of atomic cells.  One transition is one interlocked operation, one plain
 read of the shared word, or one local decision; the transitions of different
 threads interleave arbitrarily.  Memory is sequentially consistent.

 Everything the source asserts (NT_ASSERT, NT_VERIFY), and every access to memory
 that is not allocated, raises `fault` in the model.
 */
module ObjectRef {
  import opened Division
  import opened LockWord
  import opened Wrappers

  /** How the pointer being stored came to be counted. */
  datatype StoreKind = Assign | Move

  /** Where a thread stands.  A pointer of 0 is NULL. */
  datatype Pc =
    | Idle
      // Acquire shared, load, reference, release shared.
    | RefRead(cell: nat)
    | RefCas(cell: nat, seen: nat)
    | RefLoad(cell: nat)
    | RefInc(cell: nat, obj: nat)
    | RefRelease(cell: nat, obj: nat)
      // Reference the new object (Assign only), acquire exclusive, drain the
      // sharers, load the previous pointer, exchange, release exclusive.
    | AssignInc(cell: nat, obj: nat)
    | StoreRead(cell: nat, obj: nat, kind: StoreKind)
    | StoreCas(cell: nat, obj: nat, kind: StoreKind, seen: nat)
    | StoreDrain(cell: nat, obj: nat, kind: StoreKind, seen: nat)
    | StoreLoad(cell: nat, obj: nat, kind: StoreKind)
    | StoreSwap(cell: nat, obj: nat, kind: StoreKind, prev: nat)
    | StoreUnlock(cell: nat, obj: nat, kind: StoreKind, prev: nat)
      // Drop one reference; the last one runs the delete and free procedures.
    | DerefDec(obj: nat)
    | DerefDelete(obj: nat)
    | DerefFree(obj: nat)

  /** A thread, the references it may still give back, and its current call. */
  datatype Thread = Thread(pc: Pc, owned: multiset<nat>, call: Option<nat>)

  /** A call as a client sees it: an operation on one cell between two instants. */
  datatype Op = Load | Store(obj: nat, kind: StoreKind)
  datatype Effect = Effect(index: nat, time: nat, ret: nat)
  datatype Response = Response(time: nat, value: nat)
  datatype Call = Call(thread: nat, cell: nat, op: Op, invoked: nat, effect: Option<Effect>, response: Option<Response>)

  /** What a call did to its cell, in the order in which the calls took effect. */
  datatype Event = Event(call: nat, cell: nat, op: Op, ret: nat)

  datatype State = State(
    w: nat,
    cells: seq<nat>,
    heap: map<nat, nat>,      // PointerCount of every allocated object
    created: nat,
    freed: nat,
    threads: seq<Thread>,
    fault: bool,
    calls: seq<Call>,
    log: seq<Event>,
    clock: nat)

  datatype Action =
    | Spawn
    | NewCell
    | Create(t: nat, obj: nat)              // KphCreateObject
    | Duplicate(t: nat, obj: nat)           // KphReferenceObject
    | Drop(t: nat, obj: nat)                // KphDereferenceObject
    | HandOver(t: nat, u: nat, obj: nat)    // a reference changes hands
    | CallLoad(t: nat, cell: nat)           // KphAtomicReferenceObject
    | CallStore(t: nat, cell: nat, obj: nat, kind: StoreKind)
    | Run(t: nat)                           // the thread's next step

  ghost predicate Initial(s: State) {
    && s.w >= 2
    && s.cells == [] && s.threads == [] && s.heap == map[]
    && s.created == 0 && s.freed == 0 && !s.fault
    && s.calls == [] && s.log == [] && s.clock == 0
  }

  ghost predicate IsIdle(s: State, t: nat) {
    t < |s.threads| && s.threads[t].pc.Idle?
  }

  /** An address the allocator may return: not in use, aligned, not NULL. */
  ghost predicate Allocatable(s: State, obj: nat)
    requires s.w >= 2
  {
    obj > 0 && Rem(obj, 2 * s.w) == 0 && obj !in s.heap
  }

  /** A thread passes a pointer only while it holds a reference to the object. */
  ghost predicate Enabled(s: State, a: Action)
    requires s.w >= 2
  {
    match a
    case Spawn => true
    case NewCell => true
    case Create(t, obj) => IsIdle(s, t) && Allocatable(s, obj)
    case Duplicate(t, obj) => IsIdle(s, t) && obj in s.threads[t].owned
    case Drop(t, obj) => IsIdle(s, t) && obj in s.threads[t].owned
    case HandOver(t, u, obj) => IsIdle(s, t) && obj in s.threads[t].owned && u < |s.threads| && u != t
    case CallLoad(t, cell) => IsIdle(s, t) && cell < |s.cells|
    case CallStore(t, cell, obj, kind) =>
      IsIdle(s, t) && cell < |s.cells| && (obj != 0 ==> obj in s.threads[t].owned)
    case Run(t) => t < |s.threads| && !s.threads[t].pc.Idle?
  }

  function Goto(s: State, t: nat, pc: Pc): State
    requires t < |s.threads|
  {
    s.(threads := s.threads[t := s.threads[t].(pc := pc)])
  }

  function SetWord(s: State, cell: nat, word: nat): State
    requires cell < |s.cells|
  {
    s.(cells := s.cells[cell := word])
  }

  function Fault(s: State): State {
    s.(fault := true)
  }

  function One(obj: nat): multiset<nat> {
    if obj == 0 then multiset{} else multiset{obj}
  }

  /** Ends the current step sequence of a thread, which keeps `gained`. */
  function Finish(s: State, t: nat, gained: nat): State
    requires t < |s.threads|
  {
    var th := s.threads[t];
    var s1 := s.(threads := s.threads[t := Thread(Idle, th.owned + One(gained), None)]);
    match th.call
    case None => s1
    case Some(k) =>
      if k < |s.calls| then
        s1.(calls := s.calls[k := s.calls[k].(response := Some(Response(s.clock, gained)))])
      else
        Fault(s1)
  }

  /** The instant at which the current call of a thread takes effect. */
  function TakeEffect(s: State, t: nat, ret: nat): State
    requires t < |s.threads|
  {
    match s.threads[t].call
    case None => Fault(s)
    case Some(k) =>
      if k < |s.calls| then
        var c := s.calls[k];
        s.(calls := s.calls[k := c.(effect := Some(Effect(|s.log|, s.clock, ret)))],
           log := s.log + [Event(k, c.cell, c.op, ret)])
      else
        Fault(s)
  }

  function Begin(s: State, t: nat, cell: nat, op: Op, pc: Pc, given: nat): State
    requires t < |s.threads|
  {
    var th := s.threads[t];
    s.(threads := s.threads[t := Thread(pc, th.owned - One(given), Some(|s.calls|))],
       calls := s.calls + [Call(t, cell, op, s.clock, None, None)])
  }

  function StartStore(cell: nat, obj: nat, kind: StoreKind): Pc {
    if kind.Assign? && obj != 0 then AssignInc(cell, obj) else StoreRead(cell, obj, kind)
  }

  /** An interlocked increment of PointerCount; it must not find zero. */
  function Increment(s: State, obj: nat): State {
    if obj in s.heap && s.heap[obj] > 0 then s.(heap := s.heap[obj := s.heap[obj] + 1]) else Fault(s)
  }

  /** One step of a running thread. */
  function Step(s: State, t: nat): State
    requires s.w >= 2 && t < |s.threads|
  {
    match s.threads[t].pc
    case Idle => s
    case RefRead(c) =>
      if c >= |s.cells| then Fault(s) else
      if Lock(s.w, s.cells[c]) >= SharedMax(s.w) then s else Goto(s, t, RefCas(c, s.cells[c]))
    case RefCas(c, seen) =>
      if c >= |s.cells| then Fault(s) else
      if s.cells[c] == seen then Goto(SetWord(s, c, seen + 1), t, RefLoad(c)) else Goto(s, t, RefRead(c))
    case RefLoad(c) =>
      if c >= |s.cells| then Fault(s) else
      var obj := Decode(s.w, s.cells[c]).pointer;
      Goto(TakeEffect(s, t, obj), t, if obj != 0 then RefInc(c, obj) else RefRelease(c, 0))
    case RefInc(c, obj) =>
      Goto(Increment(s, obj), t, RefRelease(c, obj))
    case RefRelease(c, obj) =>
      // The borrow of an unmatched decrement would leave the shared bits at
      // their maximum, which the source asserts against.
      if c >= |s.cells| || Decode(s.w, s.cells[c]).shared == 0 then Fault(s) else
      Finish(SetWord(s, c, s.cells[c] - 1), t, obj)
    case AssignInc(c, obj) =>
      Goto(Increment(s, obj), t, StoreRead(c, obj, Assign))
    case StoreRead(c, obj, kind) =>
      if c >= |s.cells| then Fault(s) else
      if Decode(s.w, s.cells[c]).exclusive then s else Goto(s, t, StoreCas(c, obj, kind, s.cells[c]))
    case StoreCas(c, obj, kind, seen) =>
      if c >= |s.cells| then Fault(s) else
      if s.cells[c] == seen then
        Goto(SetWord(s, c, if Decode(s.w, seen).exclusive then seen else seen + s.w), t, StoreDrain(c, obj, kind, seen))
      else
        Goto(s, t, StoreRead(c, obj, kind))
    case StoreDrain(c, obj, kind, seen) =>
      if c >= |s.cells| then Fault(s) else
      if Decode(s.w, seen).shared == 0 then Goto(s, t, StoreLoad(c, obj, kind))
      else Goto(s, t, StoreDrain(c, obj, kind, s.cells[c]))
    case StoreLoad(c, obj, kind) =>
      if c >= |s.cells| then Fault(s) else
      Goto(s, t, StoreSwap(c, obj, kind, Decode(s.w, s.cells[c]).pointer))
    case StoreSwap(c, obj, kind, prev) =>
      if c >= |s.cells| then Fault(s) else
      Goto(SetWord(TakeEffect(s, t, prev), c, obj + s.w), t, StoreUnlock(c, obj, kind, prev))
    case StoreUnlock(c, obj, kind, prev) =>
      if c >= |s.cells| || !Decode(s.w, s.cells[c]).exclusive then Fault(s) else
      var s1 := SetWord(s, c, s.cells[c] - s.w);
      if kind.Assign? && prev != 0 then Goto(s1, t, DerefDec(prev)) else Finish(s1, t, prev)
    case DerefDec(obj) =>
      if obj !in s.heap || s.heap[obj] == 0 then Fault(s) else
      var s1 := s.(heap := s.heap[obj := s.heap[obj] - 1]);
      if s.heap[obj] > 1 then Finish(s1, t, 0) else Goto(s1, t, DerefDelete(obj))
    case DerefDelete(obj) =>
      if obj !in s.heap || s.heap[obj] != 0 then Fault(s) else Goto(s, t, DerefFree(obj))
    case DerefFree(obj) =>
      if obj !in s.heap || s.heap[obj] != 0 then Fault(s) else
      Finish(s.(heap := s.heap - {obj}, freed := s.freed + 1), t, 0)
  }

  function Act(s: State, a: Action): State
    requires s.w >= 2 && Enabled(s, a)
  {
    match a
    case Spawn => s.(threads := s.threads + [Thread(Idle, multiset{}, None)])
    case NewCell => s.(cells := s.cells + [0])
    case Create(t, obj) =>
      s.(heap := s.heap[obj := 1], created := s.created + 1,
         threads := s.threads[t := s.threads[t].(owned := s.threads[t].owned + multiset{obj})])
    case Duplicate(t, obj) =>
      Increment(s, obj).(threads := s.threads[t := s.threads[t].(owned := s.threads[t].owned + multiset{obj})])
    case Drop(t, obj) =>
      s.(threads := s.threads[t := Thread(DerefDec(obj), s.threads[t].owned - multiset{obj}, None)])
    case HandOver(t, u, obj) =>
      s.(threads := s.threads[t := s.threads[t].(owned := s.threads[t].owned - multiset{obj})]
                             [u := s.threads[u].(owned := s.threads[u].owned + multiset{obj})])
    case CallLoad(t, cell) => Begin(s, t, cell, Load, RefRead(cell), 0)
    case CallStore(t, cell, obj, kind) =>
      Begin(s, t, cell, Store(obj, kind), StartStore(cell, obj, kind), if kind.Move? then obj else 0)
    case Run(t) => Step(s, t)
  }

  function Next(s: State, a: Action): State
    requires s.w >= 2 && Enabled(s, a)
  {
    Act(s, a).(clock := s.clock + 1)
  }

  /** The states that some interleaving of some threads leads to. */
  ghost predicate Execution(run: seq<State>, actions: seq<Action>) {
    && |run| == |actions| + 1
    && Initial(run[0])
    && forall i :: 0 <= i < |actions| ==>
         run[i].w >= 2 && Enabled(run[i], actions[i]) && run[i + 1] == Next(run[i], actions[i])
  }
}
