/**
 The three calls on an atomic object reference behave like single operations on
 a register: every completed call took effect at one instant between its
 invocation and its response, and the results are those of a register that
 executes the calls in the order of these instants.
 */
module ObjectRefLinear {
  import opened LockWord
  import opened ObjectRef
  import opened ObjectRefSafety
  import opened ObjectRefTheorems
  import opened Wrappers

  /** The content of a cell after a sequence of register operations. */
  function Register(log: seq<Event>, c: nat): nat {
    if log == [] then 0
    else
      var e := log[|log| - 1];
      if e.cell == c && e.op.Store? then e.op.obj else Register(log[..|log| - 1], c)
  }

  /** Every operation returns what the register contained just before it. */
  ghost predicate Legal(log: seq<Event>) {
    forall i :: 0 <= i < |log| ==> log[i].ret == Register(log[..i], log[i].cell)
  }

  /** The log and the call records describe the same effects, once each. */
  ghost predicate Matched(s: State) {
    && (forall i :: 0 <= i < |s.log| ==> LogOk(s, i))
    && (forall k :: 0 <= k < |s.calls| ==> CallOk(s, k))
  }

  ghost predicate LogOk(s: State, i: nat)
    requires i < |s.log|
  {
    var e := s.log[i];
    && e.call < |s.calls| && e.cell < |s.cells|
    && s.calls[e.call].effect.Some?
    && s.calls[e.call].effect.value.index == i
    && s.calls[e.call].effect.value.ret == e.ret
    && s.calls[e.call].cell == e.cell && s.calls[e.call].op == e.op
  }

  /** KphAtomicAssignObjectReference returns nothing to its caller. */
  predicate Returns(op: Op) {
    op.Load? || op.kind.Move?
  }

  ghost predicate CallOk(s: State, k: nat)
    requires k < |s.calls|
  {
    var c := s.calls[k];
    && c.invoked < s.clock
    && c.cell < |s.cells|
    && (c.effect.Some? ==>
          && c.effect.value.index < |s.log| && s.log[c.effect.value.index].call == k
          && c.invoked < c.effect.value.time < s.clock)
    && (c.response.Some? ==>
          && c.effect.Some?
          && c.effect.value.time < c.response.value.time < s.clock
          && (Returns(c.op) ==> c.response.value.value == c.effect.value.ret))
  }

  function EffectTime(s: State, i: nat): nat
    requires i < |s.log|
  {
    var k := s.log[i].call;
    if k < |s.calls| && s.calls[k].effect.Some? then s.calls[k].effect.value.time else 0
  }

  ghost predicate Ordered(s: State) {
    forall i, j :: 0 <= i < j < |s.log| ==> EffectTime(s, i) < EffectTime(s, j)
  }

  /** The stage of its call at which a thread stands. */
  ghost predicate Stage(c: Call, pc: Pc) {
    && c.response.None?
    && match pc
       case Idle => false
       case RefRead(cell) => c.cell == cell && c.op == Load && c.effect.None?
       case RefCas(cell, _) => c.cell == cell && c.op == Load && c.effect.None?
       case RefLoad(cell) => c.cell == cell && c.op == Load && c.effect.None?
       case RefInc(_, obj) => c.op == Load && c.effect.Some? && c.effect.value.ret == obj
       case RefRelease(_, obj) => c.op == Load && c.effect.Some? && c.effect.value.ret == obj
       case AssignInc(cell, obj) => c.cell == cell && c.op == Store(obj, Assign) && c.effect.None?
       case StoreRead(cell, obj, kind) => c.cell == cell && c.op == Store(obj, kind) && c.effect.None?
       case StoreCas(cell, obj, kind, _) => c.cell == cell && c.op == Store(obj, kind) && c.effect.None?
       case StoreDrain(cell, obj, kind, _) => c.cell == cell && c.op == Store(obj, kind) && c.effect.None?
       case StoreLoad(cell, obj, kind) => c.cell == cell && c.op == Store(obj, kind) && c.effect.None?
       case StoreSwap(cell, obj, kind, _) => c.cell == cell && c.op == Store(obj, kind) && c.effect.None?
       case StoreUnlock(_, obj, kind, prev) =>
         c.op == Store(obj, kind) && c.effect.Some? && c.effect.value.ret == prev
       case _ => c.op.Store? && c.op.kind.Assign? && c.effect.Some?
  }

  ghost predicate ThreadCall(s: State, t: nat)
    requires t < |s.threads|
  {
    var th := s.threads[t];
    th.call.Some? ==>
      && th.call.value < |s.calls|
      && s.calls[th.call.value].thread == t
      && Stage(s.calls[th.call.value], th.pc)
  }

  ghost predicate History(s: State) {
    && s.w >= 2
    && Matched(s)
    && Ordered(s)
    && Legal(s.log)
    && (forall c :: 0 <= c < |s.cells| ==> Register(s.log, c) == Word(s, c).pointer)
    && (forall t :: 0 <= t < |s.threads| ==> ThreadCall(s, t))
  }

  lemma {:induction false} UntouchedRegister(log: seq<Event>, c: nat)
    requires forall i :: 0 <= i < |log| ==> log[i].cell != c
    ensures Register(log, c) == 0
  {
    if log != [] {
      UntouchedRegister(log[..|log| - 1], c);
    }
  }

  /** A step that writes no pointer and neither begins nor ends anything. */
  lemma SilentStep(s: State, s': State, t: nat, th: Thread)
    requires History(s) && t < |s.threads| && s'.w == s.w
    requires |s'.cells| == |s.cells|
    requires forall c :: 0 <= c < |s.cells| ==> Word(s', c).pointer == Word(s, c).pointer
    requires s'.calls == s.calls && s'.log == s.log && s'.clock == s.clock + 1
    requires s'.threads == s.threads[t := th] && th.call == s.threads[t].call
    requires ThreadCall(s', t)
    ensures History(s')
  {
    forall i | 0 <= i < |s'.log| ensures LogOk(s', i) {
      assert LogOk(s, i);
    }
    forall k | 0 <= k < |s'.calls| ensures CallOk(s', k) {
      assert CallOk(s, k);
    }
    assert forall i :: 0 <= i < |s.log| ==> EffectTime(s', i) == EffectTime(s, i);
    forall u | 0 <= u < |s'.threads| ensures ThreadCall(s', u) {
      assert u != t ==> ThreadCall(s, u);
    }
  }

  /** Call k of thread t begins. */
  lemma BeginStep(s: State, s': State, t: nat, th: Thread, call: Call)
    requires History(s) && t < |s.threads| && s'.w == s.w && s'.cells == s.cells
    requires s'.log == s.log && s'.clock == s.clock + 1
    requires call.thread == t && call.invoked == s.clock && call.effect.None? && call.response.None?
    requires call.cell < |s.cells|
    requires s'.calls == s.calls + [call]
    requires th.call == Some(|s.calls|) && Stage(call, th.pc)
    requires s'.threads == s.threads[t := th]
    ensures History(s')
  {
    forall i | 0 <= i < |s'.log| ensures LogOk(s', i) {
      assert LogOk(s, i);
    }
    forall k | 0 <= k < |s'.calls| ensures CallOk(s', k) {
      assert k < |s.calls| ==> CallOk(s, k);
    }
    forall i | 0 <= i < |s.log| ensures EffectTime(s', i) == EffectTime(s, i) {
      assert LogOk(s, i);
    }
    forall u | 0 <= u < |s'.threads| ensures ThreadCall(s', u) {
      assert u != t ==> ThreadCall(s, u);
    }
  }

  /** The content of cell c after a call, given its content before. */
  function After(call: Call, c: nat, before: nat): nat {
    if c == call.cell && call.op.Store? then call.op.obj else before
  }

  lemma EffectIsLegal(log: seq<Event>, e: Event)
    requires Legal(log) && e.ret == Register(log, e.cell)
    ensures Legal(log + [e])
    ensures forall c :: Register(log + [e], c) == if c == e.cell && e.op.Store? then e.op.obj else Register(log, c)
  {
    var log' := log + [e];
    assert log'[..|log|] == log;
    forall i | 0 <= i < |log'| ensures log'[i].ret == Register(log'[..i], log'[i].cell) {
      if i < |log| {
        assert log'[..i] == log[..i];
      }
    }
  }

  /** Call k of thread t takes effect. */
  lemma EffectStep(s: State, s': State, t: nat, th: Thread, k: nat, ret: nat)
    requires History(s) && t < |s.threads| && s'.w == s.w
    requires s.threads[t].call == Some(k) && th.call == Some(k)
    requires k < |s.calls| && s.calls[k].effect.None? && s.calls[k].response.None?
    requires |s'.cells| == |s.cells|
    requires forall c :: 0 <= c < |s.cells| ==> Word(s', c).pointer == After(s.calls[k], c, Word(s, c).pointer)
    requires s.calls[k].cell < |s.cells| && ret == Word(s, s.calls[k].cell).pointer
    requires s'.log == s.log + [Event(k, s.calls[k].cell, s.calls[k].op, ret)]
    requires s'.calls == s.calls[k := s.calls[k].(effect := Some(Effect(|s.log|, s.clock, ret)))]
    requires s'.clock == s.clock + 1 && s'.threads == s.threads[t := th]
    requires Stage(s'.calls[k], th.pc)
    ensures History(s')
  {
    EffectIsLegal(s.log, s'.log[|s.log|]);
    EffectIsMatched(s, s', k, ret);
    assert ThreadCall(s, t);
    forall u | 0 <= u < |s'.threads| ensures ThreadCall(s', u) {
      assert ThreadCall(s, u);
    }
  }

  lemma EffectIsMatched(s: State, s': State, k: nat, ret: nat)
    requires Matched(s) && Ordered(s)
    requires k < |s.calls| && s.calls[k].effect.None? && s.calls[k].response.None?
    requires |s'.cells| == |s.cells|
    requires s'.log == s.log + [Event(k, s.calls[k].cell, s.calls[k].op, ret)]
    requires s'.calls == s.calls[k := s.calls[k].(effect := Some(Effect(|s.log|, s.clock, ret)))]
    requires s'.clock == s.clock + 1
    ensures Matched(s') && Ordered(s')
  {
    assert CallOk(s, k);
    forall i | 0 <= i < |s'.log| ensures LogOk(s', i) {
      assert i < |s.log| ==> LogOk(s, i);
    }
    forall j | 0 <= j < |s'.calls| ensures CallOk(s', j) {
      assert CallOk(s, j);
    }
    forall i | 0 <= i < |s.log| ensures EffectTime(s', i) == EffectTime(s, i) < s.clock {
      assert LogOk(s, i) && CallOk(s, s.log[i].call);
    }
  }

  /** Call k of thread t responds. */
  lemma RespondStep(s: State, s': State, t: nat, th: Thread, k: nat, value: nat)
    requires History(s) && t < |s.threads| && s'.w == s.w
    requires s.threads[t].call == Some(k) && th.call == None
    requires k < |s.calls| && s.calls[k].effect.Some?
    requires Returns(s.calls[k].op) ==> value == s.calls[k].effect.value.ret
    requires |s'.cells| == |s.cells|
    requires forall c :: 0 <= c < |s.cells| ==> Word(s', c).pointer == Word(s, c).pointer
    requires s'.log == s.log
    requires s'.calls == s.calls[k := s.calls[k].(response := Some(Response(s.clock, value)))]
    requires s'.clock == s.clock + 1 && s'.threads == s.threads[t := th]
    ensures History(s')
  {
    assert CallOk(s, k) && ThreadCall(s, t);
    forall i | 0 <= i < |s'.log| ensures LogOk(s', i) {
      assert LogOk(s, i);
    }
    forall j | 0 <= j < |s'.calls| ensures CallOk(s', j) {
      assert CallOk(s, j);
    }
    forall i | 0 <= i < |s.log| ensures EffectTime(s', i) == EffectTime(s, i) {
      assert LogOk(s, i);
    }
    forall u | 0 <= u < |s'.threads| ensures ThreadCall(s', u) {
      assert ThreadCall(s, u);
    }
  }

  lemma LoadTakesEffect(s: State, t: nat)
    requires Inv(s) && History(s) && t < |s.threads| && s.threads[t].pc.RefLoad?
    ensures History(Next(s, Run(t)))
  {
    var s' := Next(s, Run(t));
    assert ThreadOk(s, s.threads[t]) && ThreadCall(s, t);
    EffectStep(s, s', t, s'.threads[t], s.threads[t].call.value, Word(s, s.threads[t].pc.cell).pointer);
  }

  lemma SwapTakesEffect(s: State, t: nat)
    requires Inv(s) && History(s) && t < |s.threads| && s.threads[t].pc.StoreSwap?
    ensures History(Next(s, Run(t)))
  {
    var s' := Next(s, Run(t));
    assert ThreadOk(s, s.threads[t]) && ThreadCall(s, t);
    forall c | 0 <= c < |s.cells|
      ensures Word(s', c).pointer == if c == s.threads[t].pc.cell then s.threads[t].pc.obj else Word(s, c).pointer
    {
      SwapWord(s, t, c);
    }
    EffectStep(s, s', t, s'.threads[t], s.threads[t].call.value, s.threads[t].pc.prev);
  }

  /** The steps with which a thread may finish what it is doing. */
  predicate MayFinish(pc: Pc) {
    pc.RefRelease? || pc.StoreUnlock? || pc.DerefDec? || pc.DerefFree?
  }

  lemma PointersStay(s: State, t: nat)
    requires Inv(s) && Enabled(s, Run(t)) && !s.threads[t].pc.StoreSwap?
    ensures var s' := Next(s, Run(t));
      && s'.w == s.w && |s'.cells| == |s.cells|
      && forall c :: 0 <= c < |s.cells| ==> Word(s', c).pointer == Word(s, c).pointer
  {
    if |s.cells| == 0 {
      NoCells(s, t);
    } else {
      StepWord(s, t, 0);
    }
    forall c | 0 <= c < |s.cells| ensures Word(Step(s, t), c).pointer == Word(s, c).pointer {
      StepWord(s, t, c);
    }
  }

  lemma NoCells(s: State, t: nat)
    requires Inv(s) && t < |s.threads| && |s.cells| == 0
    ensures Step(s, t).w == s.w && |Step(s, t).cells| == |s.cells|
  {
    assert ThreadOk(s, s.threads[t]);
  }

  /** A finishing step, with or without a call to answer. */
  lemma FinishStep(s: State, s1: State, s': State, t: nat, value: nat)
    requires Inv(s) && History(s) && t < |s.threads| && s1.w == s.w
    requires s1.threads == s.threads && s1.calls == s.calls && s1.log == s.log && s1.clock == s.clock
    requires s' == Finish(s1, t, value).(clock := s.clock + 1) && s'.w == s.w && |s'.cells| == |s.cells|
    requires forall c :: 0 <= c < |s.cells| ==> Word(s', c).pointer == Word(s, c).pointer
    requires s.threads[t].call.Some? ==>
               var c := s.calls[s.threads[t].call.value];
               c.effect.Some? && (Returns(c.op) ==> value == c.effect.value.ret)
    ensures History(s')
  {
    assert ThreadOk(s, s.threads[t]) && ThreadCall(s, t);
    var th := Thread(Idle, s.threads[t].owned + One(value), None);
    if s.threads[t].call.Some? {
      RespondStep(s, s', t, th, s.threads[t].call.value, value);
    } else {
      SilentStep(s, s', t, th);
    }
  }

  lemma ReleaseIs(s: State, t: nat)
    requires Inv(s) && t < |s.threads| && s.threads[t].pc.RefRelease?
    ensures var RefRelease(c, obj) := s.threads[t].pc;
      c < |s.cells| && s.cells[c] >= 1
      && Next(s, Run(t)) == Finish(SetWord(s, c, s.cells[c] - 1), t, obj).(clock := s.clock + 1)
  {
    var c := s.threads[t].pc.cell;
    assert ThreadOk(s, s.threads[t]);
    SumMember(Sharer(c), s.threads, t);
    DropShared(s.w, s.cells[c]);
  }

  lemma ReleaseFinishes(s: State, t: nat)
    requires Inv(s) && History(s) && t < |s.threads| && s.threads[t].pc.RefRelease?
    ensures History(Next(s, Run(t)))
  {
    var RefRelease(c, obj) := s.threads[t].pc;
    assert ThreadOk(s, s.threads[t]) && ThreadCall(s, t);
    ReleaseIs(s, t);
    PointersStay(s, t);
    FinishStep(s, SetWord(s, c, s.cells[c] - 1), Next(s, Run(t)), t, obj);
  }

  /** An assignment that still has to drop the previous object. */
  predicate DropsLater(pc: Pc) {
    pc.StoreUnlock? && pc.kind.Assign? && pc.prev != 0
  }

  lemma UnlockGoesOn(s: State, t: nat)
    requires Inv(s) && History(s) && t < |s.threads| && DropsLater(s.threads[t].pc)
    ensures History(Next(s, Run(t)))
  {
    var StoreUnlock(c, _, _, prev) := s.threads[t].pc;
    assert ThreadOk(s, s.threads[t]) && ThreadCall(s, t);
    SumMember(Excluder(c), s.threads, t);
    PointersStay(s, t);
    SilentStep(s, Next(s, Run(t)), t, s.threads[t].(pc := DerefDec(prev)));
  }

  lemma UnlockIs(s: State, t: nat)
    requires Inv(s) && t < |s.threads| && s.threads[t].pc.StoreUnlock? && !DropsLater(s.threads[t].pc)
    ensures var StoreUnlock(c, _, _, prev) := s.threads[t].pc;
      c < |s.cells| && s.cells[c] >= s.w
      && Next(s, Run(t)) == Finish(SetWord(s, c, s.cells[c] - s.w), t, prev).(clock := s.clock + 1)
  {
    assert ThreadOk(s, s.threads[t]);
    SumMember(Excluder(s.threads[t].pc.cell), s.threads, t);
  }

  lemma UnlockFinishes(s: State, t: nat)
    requires Inv(s) && History(s) && t < |s.threads| && s.threads[t].pc.StoreUnlock? && !DropsLater(s.threads[t].pc)
    ensures History(Next(s, Run(t)))
  {
    var StoreUnlock(c, _, _, prev) := s.threads[t].pc;
    assert ThreadOk(s, s.threads[t]) && ThreadCall(s, t);
    UnlockIs(s, t);
    PointersStay(s, t);
    FinishStep(s, SetWord(s, c, s.cells[c] - s.w), Next(s, Run(t)), t, prev);
  }

  lemma FreeFinishes(s: State, t: nat)
    requires Inv(s) && History(s) && t < |s.threads| && s.threads[t].pc.DerefFree?
    ensures History(Next(s, Run(t)))
  {
    var obj := s.threads[t].pc.obj;
    assert ThreadOk(s, s.threads[t]) && ThreadCall(s, t);
    LastGone(s, t, obj);
    FinishStep(s, s.(heap := s.heap - {obj}, freed := s.freed + 1), Next(s, Run(t)), t, 0);
  }

  lemma DerefFinishes(s: State, t: nat)
    requires Inv(s) && History(s) && t < |s.threads| && s.threads[t].pc.DerefDec?
    ensures History(Next(s, Run(t)))
  {
    var obj := s.threads[t].pc.obj;
    var s' := Next(s, Run(t));
    assert ThreadOk(s, s.threads[t]) && ThreadCall(s, t);
    Referenced(s, t, obj);
    if s.heap[obj] > 1 {
      FinishStep(s, s.(heap := s.heap[obj := s.heap[obj] - 1]), s', t, 0);
    } else {
      SilentStep(s, s', t, s.threads[t].(pc := DerefDelete(obj)));
    }
  }

  /** The remaining steps only move a thread through its program. */
  lemma StepStays(s: State, t: nat)
    requires Inv(s) && History(s) && t < |s.threads|
    requires var pc := s.threads[t].pc; !pc.Idle? && !pc.RefLoad? && !pc.StoreSwap? && !MayFinish(pc)
    ensures History(Next(s, Run(t)))
  {
    assert ThreadOk(s, s.threads[t]) && ThreadCall(s, t);
    PointersStay(s, t);
    GoesOn(s, t);
    SilentStep(s, Next(s, Run(t)), t, Step(s, t).threads[t]);
  }

  /** Nothing happens to the calls, and thread t stays in the same call. */
  ghost predicate OnlyMoves(s: State, s': State, t: nat)
    requires t < |s.threads|
  {
    && s'.calls == s.calls && s'.log == s.log && s'.clock == s.clock
    && |s'.threads| == |s.threads| && s'.threads == s.threads[t := s'.threads[t]]
    && s'.threads[t].call == s.threads[t].call
    && ThreadCall(s', t)
  }

  lemma GoesOn(s: State, t: nat)
    requires s.w >= 2 && t < |s.threads| && ThreadCall(s, t)
    requires var pc := s.threads[t].pc; !pc.Idle? && !pc.RefLoad? && !pc.StoreSwap? && !MayFinish(pc)
    ensures OnlyMoves(s, Step(s, t), t)
  {
    var pc := s.threads[t].pc;
    if pc.RefRead? || pc.RefCas? || pc.RefInc? {
      LoadGoesOn(s, t);
    } else {
      StoreGoesOn(s, t);
    }
  }

  lemma LoadGoesOn(s: State, t: nat)
    requires s.w >= 2 && t < |s.threads| && ThreadCall(s, t)
    requires s.threads[t].pc.RefRead? || s.threads[t].pc.RefCas? || s.threads[t].pc.RefInc?
    ensures OnlyMoves(s, Step(s, t), t)
  {
  }

  lemma StoreGoesOn(s: State, t: nat)
    requires s.w >= 2 && t < |s.threads| && ThreadCall(s, t)
    requires var pc := s.threads[t].pc;
             pc.AssignInc? || pc.StoreRead? || pc.StoreCas? || pc.StoreDrain? || pc.StoreLoad? || pc.DerefDelete?
    ensures OnlyMoves(s, Step(s, t), t)
  {
  }

  lemma StepHistory(s: State, t: nat)
    requires Inv(s) && History(s) && Enabled(s, Run(t))
    ensures History(Next(s, Run(t)))
  {
    var pc := s.threads[t].pc;
    if pc.RefLoad? {
      LoadTakesEffect(s, t);
    } else if pc.StoreSwap? {
      SwapTakesEffect(s, t);
    } else if pc.RefRelease? {
      ReleaseFinishes(s, t);
    } else if DropsLater(pc) {
      UnlockGoesOn(s, t);
    } else if pc.StoreUnlock? {
      UnlockFinishes(s, t);
    } else if pc.DerefFree? {
      FreeFinishes(s, t);
    } else if pc.DerefDec? {
      DerefFinishes(s, t);
    } else {
      StepStays(s, t);
    }
  }

  /** A step of the environment that touches neither calls nor cells. */
  lemma Outside(s: State, s': State)
    requires History(s) && s'.w == s.w && s'.cells == s.cells
    requires s'.calls == s.calls && s'.log == s.log && s'.clock == s.clock + 1
    requires |s'.threads| >= |s.threads|
    requires forall u :: 0 <= u < |s'.threads| ==>
      || s'.threads[u].call.None?
      || (u < |s.threads| && s'.threads[u].call == s.threads[u].call && s'.threads[u].pc == s.threads[u].pc)
    ensures History(s')
  {
    forall i | 0 <= i < |s'.log| ensures LogOk(s', i) {
      assert LogOk(s, i);
    }
    forall k | 0 <= k < |s'.calls| ensures CallOk(s', k) {
      assert CallOk(s, k);
    }
    assert forall i :: 0 <= i < |s.log| ==> EffectTime(s', i) == EffectTime(s, i);
    forall u | 0 <= u < |s'.threads| ensures ThreadCall(s', u) {
      assert u < |s.threads| ==> ThreadCall(s, u);
    }
  }

  lemma CellHistory(s: State)
    requires Inv(s) && History(s)
    ensures History(Next(s, NewCell))
  {
    var s' := Next(s, NewCell);
    DecodeEncode(s.w, Fields(0, false, 0));
    forall i | 0 <= i < |s'.log| ensures LogOk(s', i) && s.log[i].cell != |s.cells| {
      assert LogOk(s, i);
    }
    UntouchedRegister(s.log, |s.cells|);
    forall k | 0 <= k < |s'.calls| ensures CallOk(s', k) {
      assert CallOk(s, k);
    }
    assert forall i :: 0 <= i < |s.log| ==> EffectTime(s', i) == EffectTime(s, i);
    forall u | 0 <= u < |s'.threads| ensures ThreadCall(s', u) {
      assert ThreadCall(s, u);
    }
  }

  lemma CallHistory(s: State, a: Action)
    requires Inv(s) && History(s) && Enabled(s, a) && (a.CallLoad? || a.CallStore?)
    ensures History(Next(s, a))
  {
    var s' := Next(s, a);
    BeginStep(s, s', a.t, s'.threads[a.t], s'.calls[|s.calls|]);
  }

  lemma OwnerHistory(s: State, a: Action)
    requires Inv(s) && History(s) && Enabled(s, a) && (a.Create? || a.Duplicate?)
    ensures History(Next(s, a))
  {
    assert ThreadCall(s, a.t);
    if a.Duplicate? {
      Referenced(s, a.t, a.obj);
    }
    Outside(s, Next(s, a));
  }

  lemma NextHistory(s: State, a: Action)
    requires Inv(s) && History(s) && Enabled(s, a)
    ensures History(Next(s, a))
  {
    match a
    case Run(t) => StepHistory(s, t);
    case CallLoad(_, _) => CallHistory(s, a);
    case CallStore(_, _, _, _) => CallHistory(s, a);
    case NewCell => CellHistory(s);
    case Create(_, _) => OwnerHistory(s, a);
    case Spawn => Outside(s, Next(s, a));
    case Duplicate(_, _) => OwnerHistory(s, a);
    case Drop(_, _) => Outside(s, Next(s, a));
    case HandOver(_, _, _) => Outside(s, Next(s, a));
  }

  lemma {:induction false} RunsHaveHistory(run: seq<State>, actions: seq<Action>, n: nat)
    requires Execution(run, actions) && n < |run|
    ensures Inv(run[n]) && History(run[n])
  {
    RunsAreSafe(run, actions, n);
    if n > 0 {
      RunsHaveHistory(run, actions, n - 1);
      NextHistory(run[n - 1], actions[n - 1]);
    }
  }

  /** Call j begins after call i has returned. */
  ghost predicate Precedes(calls: seq<Call>, i: nat, j: nat)
    requires i < |calls| && j < |calls|
  {
    calls[i].response.Some? && calls[i].response.value.time <= calls[j].invoked
  }

  /** The log is a sequential history of a register that explains the calls:
      it is legal, names every call at most once and every completed call with
      the result its caller saw, and keeps the order of calls that do not overlap. */
  ghost predicate Explains(log: seq<Event>, calls: seq<Call>) {
    && Legal(log)
    && (forall i :: 0 <= i < |log| ==>
          log[i].call < |calls| && calls[log[i].call].cell == log[i].cell && calls[log[i].call].op == log[i].op)
    && (forall i, j :: 0 <= i < j < |log| ==> log[i].call != log[j].call)
    && (forall k :: 0 <= k < |calls| && calls[k].response.Some? ==> Answered(log, calls, k))
    && (forall i, j :: 0 <= i < |log| && 0 <= j < |log| && Precedes(calls, log[i].call, log[j].call) ==> i < j)
  }

  ghost predicate Answered(log: seq<Event>, calls: seq<Call>, k: nat)
    requires k < |calls| && calls[k].response.Some?
  {
    exists i :: 0 <= i < |log| && log[i].call == k
      && (Returns(calls[k].op) ==> calls[k].response.value.value == log[i].ret)
  }

  /** In every run the log explains the call records. */
  lemma LogExplains(run: seq<State>, actions: seq<Action>, n: nat)
    requires Execution(run, actions) && n < |run|
    ensures Explains(run[n].log, run[n].calls)
  {
    RunsHaveHistory(run, actions, n);
    var s := run[n];
    forall i | 0 <= i < |s.log|
      ensures s.log[i].call < |s.calls| && s.calls[s.log[i].call].cell == s.log[i].cell
      ensures s.calls[s.log[i].call].op == s.log[i].op
    {
      assert LogOk(s, i);
    }
    forall i, j | 0 <= i < j < |s.log| ensures s.log[i].call != s.log[j].call {
      assert LogOk(s, i) && LogOk(s, j);
    }
    forall k | 0 <= k < |s.calls| && s.calls[k].response.Some? ensures Answered(s.log, s.calls, k) {
      assert CallOk(s, k) && LogOk(s, s.calls[k].effect.value.index);
    }
    forall i, j | 0 <= i < |s.log| && 0 <= j < |s.log| && Precedes(s.calls, s.log[i].call, s.log[j].call)
      ensures i < j
    {
      assert LogOk(s, i) && LogOk(s, j);
      assert CallOk(s, s.log[i].call) && CallOk(s, s.log[j].call);
      assert EffectTime(s, i) < EffectTime(s, j);
    }
  }
}
