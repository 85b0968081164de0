/**
 The calls on atomic object references as their clients see them: a client makes a
 call with an action of its thread, and the call returns when the thread is idle
 again, with the references that the thread has gained.  In every run the calls are
 linearizable to a register for each cell.
 */
module ObjectRefClients {
  import opened ObjectRef
  import opened ObjectRefSafety
  import opened ObjectRefTheorems
  import opened ObjectRefLinear
  import opened Wrappers

  predicate IsCall(a: Action) {
    a.CallLoad? || a.CallStore?
  }

  function OpOf(a: Action): Op
    requires IsCall(a)
  {
    if a.CallLoad? then Load else Store(a.obj, a.kind)
  }

  ghost predicate Busy(s: State, t: nat) {
    t < |s.threads| && !s.threads[t].pc.Idle?
  }

  /** The call made by action i returns with action j. */
  ghost predicate Returned(run: seq<State>, actions: seq<Action>, i: nat, j: nat) {
    && i < j < |actions| < |run| && IsCall(actions[i])
    && (forall k :: i < k <= j ==> Busy(run[k], actions[i].t))
    && IsIdle(run[j + 1], actions[i].t)
  }

  /** With action j thread t gains a reference to an object, or nothing if that is NULL. */
  ghost predicate Gains(run: seq<State>, j: nat, t: nat, obj: nat) {
    && j + 1 < |run| && t < |run[j].threads| && t < |run[j + 1].threads|
    && run[j + 1].threads[t].owned == run[j].threads[t].owned + One(obj)
  }

  /** The content of cell c after the calls made by a sequence of actions. */
  function Content(actions: seq<Action>, order: seq<nat>, c: nat): nat {
    if order == [] then 0
    else
      var i := order[|order| - 1];
      if i < |actions| && actions[i].CallStore? && actions[i].cell == c then actions[i].obj
      else Content(actions, order[..|order| - 1], c)
  }

  /** What the call made by action i gives to its thread if the calls in `before` come
      before it: reference and move give what the cell contained, assign nothing. */
  function Due(actions: seq<Action>, before: seq<nat>, i: nat): nat
    requires i < |actions| && IsCall(actions[i])
  {
    if Returns(OpOf(actions[i])) then Content(actions, before, actions[i].cell) else 0
  }

  /** An order of calls, given by their actions, that explains the run: it contains
      every call that returned, once, and calls that have not returned yet at most
      once; each returned what is due in this order; and a call that returned before
      another was made comes before it. */
  ghost predicate Linearizes(order: seq<nat>, run: seq<State>, actions: seq<Action>) {
    && (forall p :: 0 <= p < |order| ==> order[p] < |actions| && IsCall(actions[order[p]]))
    && (forall p, q :: 0 <= p < q < |order| ==> order[p] != order[q])
    && (forall i: nat, j: nat :: Returned(run, actions, i, j) ==> Explained(order, run, actions, i, j))
    && (forall p, q, j: nat :: 0 <= p < |order| && 0 <= q < |order| ==>
          Returned(run, actions, order[p], j) && j < order[q] ==> p < q)
  }

  ghost predicate Explained(order: seq<nat>, run: seq<State>, actions: seq<Action>, i: nat, j: nat)
    requires i < |actions| && IsCall(actions[i])
  {
    exists p :: 0 <= p < |order| && order[p] == i && Gains(run, j, actions[i].t, Due(actions, order[..p], i))
  }

  /** The parts of a call record that never change. */
  predicate SameCall(c: Call, c': Call) {
    c'.thread == c.thread && c'.cell == c.cell && c'.op == c.op && c'.invoked == c.invoked
  }

  /** What one step of thread t does to the call that is recorded as number k. */
  ghost predicate CallGoesOn(s: State, s': State, t: nat, k: nat)
    requires t < |s.threads| && t < |s'.threads| && k < |s.calls| && k < |s'.calls|
  {
    && SameCall(s.calls[k], s'.calls[k])
    && (s'.calls[k].response == s.calls[k].response || Responds(s, s', t, k))
  }

  ghost predicate Responds(s: State, s': State, t: nat, k: nat)
    requires t < |s.threads| && t < |s'.threads| && k < |s.calls| && k < |s'.calls|
  {
    && s.threads[t].call == Some(k) && s.calls[k].thread == t && s.calls[k].response.None?
    && s'.calls[k].response.Some?
    && s'.calls[k].response.value.time == s.clock && s'.threads[t].pc.Idle?
    && s'.threads[t].owned == s.threads[t].owned + One(s'.calls[k].response.value.value)
    && (!Returns(s.calls[k].op) ==> s'.calls[k].response.value.value == 0)
  }

  /** A thread stays in its call until it is idle, and then the call has returned; and
      only a call that returns may give it a reference. */
  ghost predicate ThreadGoesOn(s: State, s': State, t: nat)
    requires t < |s.threads| && t < |s'.threads| && |s.calls| == |s'.calls|
  {
    && (s.threads[t].call.None? || !s'.threads[t].pc.Idle? ==> s'.threads[t].owned == s.threads[t].owned)
    && if s'.threads[t].pc.Idle? then
      s'.threads[t].call == None
      && (s.threads[t].call.Some? && s.threads[t].call.value < |s.calls| ==>
            s'.calls[s.threads[t].call.value].response.Some?)
    else s'.threads[t].call == s.threads[t].call
  }

  ghost predicate GoesOnRight(s: State, s': State, t: nat) {
    && t < |s.threads| && |s'.threads| == |s.threads| && |s'.calls| == |s.calls|
    && (forall k :: 0 <= k < |s.calls| ==> CallGoesOn(s, s', t, k))
    && ThreadGoesOn(s, s', t)
    && forall u :: 0 <= u < |s.threads| && u != t ==> s'.threads[u] == s.threads[u]
  }

  lemma FinishGoesOn(s: State, s1: State, s': State, t: nat, gained: nat)
    requires t < |s.threads| && s1.threads == s.threads && s1.calls == s.calls && s1.clock == s.clock
    requires s' == Finish(s1, t, gained).(clock := s.clock + 1) && (s.threads[t].call.None? ==> gained == 0)
    requires s.threads[t].call.Some? ==>
               var k := s.threads[t].call.value;
               && k < |s.calls| && s.calls[k].thread == t && s.calls[k].response.None?
               && (!Returns(s.calls[k].op) ==> gained == 0)
    ensures GoesOnRight(s, s', t)
  {
  }

  lemma EffectGoesOn(s: State, s': State, t: nat, k: nat, ret: nat)
    requires t < |s.threads| && t < |s'.threads| && s.threads[t].call == Some(k) && k < |s.calls|
    requires !s'.threads[t].pc.Idle? && s'.threads[t].call == s.threads[t].call
    requires s'.threads[t].owned == s.threads[t].owned
    requires |s'.threads| == |s.threads| && s'.threads == s.threads[t := s'.threads[t]]
    requires s'.calls == s.calls[k := s.calls[k].(effect := Some(Effect(|s.log|, s.clock, ret)))]
    ensures GoesOnRight(s, s', t)
  {
  }

  /** The step sequence of a thread other than its last step and its effect. */
  lemma MoveGoesOn(s: State, s': State, t: nat)
    requires t < |s.threads| && |s'.threads| == |s.threads| && s'.threads == s.threads[t := s'.threads[t]]
    requires s'.calls == s.calls && s'.threads[t].call == s.threads[t].call && !s'.threads[t].pc.Idle?
    requires s'.threads[t].owned == s.threads[t].owned
    ensures GoesOnRight(s, s', t)
  {
  }

  lemma EffectRight(s: State, t: nat)
    requires Inv(s) && History(s) && t < |s.threads| && (s.threads[t].pc.RefLoad? || s.threads[t].pc.StoreSwap?)
    ensures GoesOnRight(s, Next(s, Run(t)), t)
  {
    assert ThreadOk(s, s.threads[t]) && ThreadCall(s, t);
    var ret := if s.threads[t].pc.RefLoad? then Word(s, s.threads[t].pc.cell).pointer else s.threads[t].pc.prev;
    EffectGoesOn(s, Next(s, Run(t)), t, s.threads[t].call.value, ret);
  }

  lemma ReleaseRight(s: State, t: nat)
    requires Inv(s) && History(s) && t < |s.threads| && s.threads[t].pc.RefRelease?
    ensures GoesOnRight(s, Next(s, Run(t)), t)
  {
    var RefRelease(c, obj) := s.threads[t].pc;
    assert ThreadOk(s, s.threads[t]) && ThreadCall(s, t);
    ReleaseIs(s, t);
    FinishGoesOn(s, SetWord(s, c, s.cells[c] - 1), Next(s, Run(t)), t, obj);
  }

  lemma UnlockRight(s: State, t: nat)
    requires Inv(s) && History(s) && t < |s.threads|
    requires s.threads[t].pc.StoreUnlock? && !DropsLater(s.threads[t].pc)
    ensures GoesOnRight(s, Next(s, Run(t)), t)
  {
    var StoreUnlock(c, _, _, prev) := s.threads[t].pc;
    assert ThreadOk(s, s.threads[t]) && ThreadCall(s, t);
    UnlockIs(s, t);
    FinishGoesOn(s, SetWord(s, c, s.cells[c] - s.w), Next(s, Run(t)), t, prev);
  }

  lemma DropRightLater(s: State, t: nat)
    requires Inv(s) && History(s) && t < |s.threads| && DropsLater(s.threads[t].pc)
    ensures GoesOnRight(s, Next(s, Run(t)), t)
  {
    assert ThreadOk(s, s.threads[t]);
    SumMember(Excluder(s.threads[t].pc.cell), s.threads, t);
    MoveGoesOn(s, Next(s, Run(t)), t);
  }

  lemma DropRight(s: State, t: nat)
    requires Inv(s) && History(s) && t < |s.threads| && (s.threads[t].pc.DerefDec? || s.threads[t].pc.DerefFree?)
    ensures GoesOnRight(s, Next(s, Run(t)), t)
  {
    var obj := s.threads[t].pc.obj;
    assert ThreadOk(s, s.threads[t]) && ThreadCall(s, t);
    if s.threads[t].pc.DerefFree? {
      LastGone(s, t, obj);
      FinishGoesOn(s, s.(heap := s.heap - {obj}, freed := s.freed + 1), Next(s, Run(t)), t, 0);
      return;
    }
    Referenced(s, t, obj);
    if s.heap[obj] > 1 {
      FinishGoesOn(s, s.(heap := s.heap[obj := s.heap[obj] - 1]), Next(s, Run(t)), t, 0);
    } else {
      MoveGoesOn(s, Next(s, Run(t)), t);
    }
  }

  lemma StepRight(s: State, t: nat)
    requires Inv(s) && History(s) && Enabled(s, Run(t))
    ensures GoesOnRight(s, Next(s, Run(t)), t)
  {
    var pc := s.threads[t].pc;
    if pc.RefLoad? || pc.StoreSwap? {
      EffectRight(s, t);
    } else if pc.RefRelease? {
      ReleaseRight(s, t);
    } else if DropsLater(pc) {
      DropRightLater(s, t);
    } else if pc.StoreUnlock? {
      UnlockRight(s, t);
    } else if pc.DerefDec? || pc.DerefFree? {
      DropRight(s, t);
    } else {
      assert ThreadCall(s, t);
      GoesOn(s, t);
      StaysBusy(s, t);
      MoveGoesOn(s, Next(s, Run(t)), t);
    }
  }

  lemma StaysBusy(s: State, t: nat)
    requires s.w >= 2 && t < |s.threads| && !s.threads[t].pc.Idle? && !MayFinish(s.threads[t].pc)
    ensures t < |Step(s, t).threads| && !Step(s, t).threads[t].pc.Idle?
    ensures Step(s, t).threads[t].owned == s.threads[t].owned
  {
    var pc := s.threads[t].pc;
    if pc.StoreRead? || pc.StoreCas? || pc.StoreDrain? || pc.StoreLoad? || pc.StoreSwap? || pc.AssignInc? {
      StoreStaysBusy(s, t);
    }
  }

  lemma StoreStaysBusy(s: State, t: nat)
    requires s.w >= 2 && t < |s.threads|
    requires var pc := s.threads[t].pc;
      pc.StoreRead? || pc.StoreCas? || pc.StoreDrain? || pc.StoreLoad? || pc.StoreSwap? || pc.AssignInc?
    ensures t < |Step(s, t).threads| && !Step(s, t).threads[t].pc.Idle?
    ensures Step(s, t).threads[t].owned == s.threads[t].owned
  {
  }

  /** What any other action does: the calls that are recorded stay as they are, and a
      call is recorded if and only if the action makes one. */
  ghost predicate ActsRight(s: State, s': State, a: Action) {
    && |s'.threads| >= |s.threads|
    && (forall u :: 0 <= u < |s.threads| && (IsCall(a) ==> u != a.t) ==>
          s'.threads[u].call == s.threads[u].call && (s.threads[u].call.Some? ==> s'.threads[u].pc == s.threads[u].pc))
    && (if IsCall(a) then
          && s'.calls == s.calls + [Call(a.t, a.cell, OpOf(a), s.clock, None, None)]
          && Busy(s', a.t) && s'.threads[a.t].call == Some(|s.calls|)
        else s'.calls == s.calls)
  }

  lemma ActRight(s: State, a: Action)
    requires Inv(s) && History(s) && Enabled(s, a) && !a.Run?
    ensures ActsRight(s, Next(s, a), a)
  {
    if IsCall(a) {
      CallRight(s, a);
    } else {
      match a
      case Duplicate(t, obj) => IdleCall(s, t); Referenced(s, t, obj);
      case Create(t, _) => IdleCall(s, t);
      case Drop(t, _) => IdleCall(s, t);
      case HandOver(t, u, _) => HandOverRight(s, a);
      case _ =>
    }
  }

  lemma CallRight(s: State, a: Action)
    requires s.w >= 2 && Enabled(s, a) && IsCall(a)
    ensures ActsRight(s, Next(s, a), a)
  {
  }

  lemma HandOverRight(s: State, a: Action)
    requires History(s) && Enabled(s, a) && a.HandOver?
    ensures ActsRight(s, Next(s, a), a)
  {
    IdleCall(s, a.t);
  }

  lemma IdleCall(s: State, t: nat)
    requires History(s) && IsIdle(s, t)
    ensures s.threads[t].call == None
  {
    assert ThreadCall(s, t);
  }

  /** What call record k of state n has to do with the actions before. */
  ghost predicate RecordOk(run: seq<State>, actions: seq<Action>, n: nat, k: nat)
    requires n < |run| && n <= |actions| && k < |run[n].calls|
  {
    var c := run[n].calls[k];
    && c.invoked < n && Makes(actions[c.invoked], c)
    && match c.response
       case None => StillOn(run, n, k)
       case Some(r) =>
         && r.time < n && Returned(run, actions, c.invoked, r.time) && Gains(run, r.time, c.thread, r.value)
         && (!Returns(c.op) ==> r.value == 0)
  }

  predicate Makes(a: Action, c: Call) {
    IsCall(a) && c.thread == a.t && c.cell == a.cell && c.op == OpOf(a)
  }

  ghost predicate StillOn(run: seq<State>, n: nat, k: nat)
    requires n < |run| && k < |run[n].calls|
  {
    var c := run[n].calls[k];
    && c.thread < |run[n].threads| && run[n].threads[c.thread].call == Some(k)
    && forall m :: c.invoked < m <= n ==> Busy(run[m], c.thread)
  }

  /** The call records of state n are those of the calls made by the actions before. */
  ghost predicate Tied(run: seq<State>, actions: seq<Action>, n: nat)
    requires n < |run| && n <= |actions|
  {
    && run[n].clock == n
    && (forall k :: 0 <= k < |run[n].calls| ==> RecordOk(run, actions, n, k))
    && (forall k, l :: 0 <= k < l < |run[n].calls| ==> run[n].calls[k].invoked < run[n].calls[l].invoked)
    && (forall i :: 0 <= i < n && IsCall(actions[i]) ==> IsRecorded(run[n], i))
  }

  ghost predicate IsRecorded(s: State, i: nat) {
    exists k :: 0 <= k < |s.calls| && s.calls[k].invoked == i
  }

  lemma RecordRuns(run: seq<State>, actions: seq<Action>, n: nat, k: nat)
    requires n < |actions| < |run| && k < |run[n].calls| && RecordOk(run, actions, n, k)
    requires actions[n].Run? && run[n].clock == n && GoesOnRight(run[n], run[n + 1], actions[n].t)
    ensures RecordOk(run, actions, n + 1, k)
  {
    var s, s', t := run[n], run[n + 1], actions[n].t;
    var c := s.calls[k];
    assert CallGoesOn(s, s', t, k);
    if c.response.None? {
      assert Busy(s, c.thread);
      if s'.calls[k].response.Some? {
        assert Responds(s, s', t, k);
        assert Gains(run, n, t, s'.calls[k].response.value.value);
      } else {
        assert c.thread != t ==> s'.threads[c.thread] == s.threads[c.thread];
        assert Busy(s', c.thread);
      }
    }
  }

  lemma RecordStays(run: seq<State>, actions: seq<Action>, n: nat, k: nat)
    requires n < |actions| < |run| && k < |run[n].calls| && RecordOk(run, actions, n, k)
    requires ActsRight(run[n], run[n + 1], actions[n])
    requires IsCall(actions[n]) ==> actions[n].t < |run[n].threads| && run[n].threads[actions[n].t].call == None
    ensures k < |run[n + 1].calls| && RecordOk(run, actions, n + 1, k)
  {
    assert run[n + 1].calls[k] == run[n].calls[k];
  }

  /** What the action of a run does, given what it may do. */
  ghost predicate Right(s: State, s': State, a: Action) {
    if a.Run? then GoesOnRight(s, s', a.t)
    else ActsRight(s, s', a) && (IsCall(a) ==> a.t < |s.threads| && s.threads[a.t].call == None)
  }

  lemma ActionRight(run: seq<State>, actions: seq<Action>, n: nat)
    requires Execution(run, actions) && n < |actions|
    ensures Right(run[n], run[n + 1], actions[n])
  {
    RunsHaveHistory(run, actions, n);
    if actions[n].Run? {
      StepRight(run[n], actions[n].t);
    } else {
      ActRight(run[n], actions[n]);
      if IsCall(actions[n]) {
        IdleCall(run[n], actions[n].t);
      }
    }
  }

  lemma NewRecord(run: seq<State>, actions: seq<Action>, n: nat)
    requires n < |actions| < |run| && run[n].clock == n && IsCall(actions[n])
    requires ActsRight(run[n], run[n + 1], actions[n])
    ensures RecordOk(run, actions, n + 1, |run[n].calls|)
  {
  }

  lemma RecordsNext(run: seq<State>, actions: seq<Action>, n: nat, k: nat)
    requires n < |actions| < |run| && Tied(run, actions, n) && Right(run[n], run[n + 1], actions[n])
    requires k < |run[n + 1].calls|
    ensures RecordOk(run, actions, n + 1, k)
  {
    if actions[n].Run? {
      RecordRuns(run, actions, n, k);
    } else if k < |run[n].calls| {
      RecordStays(run, actions, n, k);
    } else {
      NewRecord(run, actions, n);
    }
  }

  lemma InvokedStays(s: State, s': State, a: Action, k: nat)
    requires Right(s, s', a) && k < |s.calls|
    ensures k < |s'.calls| && s'.calls[k].invoked == s.calls[k].invoked
  {
    assert a.Run? ==> CallGoesOn(s, s', a.t, k);
  }

  lemma RecordedStays(s: State, s': State, a: Action, i: nat)
    requires Right(s, s', a) && (IsRecorded(s, i) || (i == s.clock && IsCall(a)))
    ensures IsRecorded(s', i)
  {
    if IsRecorded(s, i) {
      var k :| 0 <= k < |s.calls| && s.calls[k].invoked == i;
      InvokedStays(s, s', a, k);
    } else {
      assert s'.calls[|s.calls|].invoked == i;
    }
  }

  lemma RecordsAscend(s: State, s': State, a: Action)
    requires Right(s, s', a) && forall k :: 0 <= k < |s.calls| ==> s.calls[k].invoked < s.clock
    requires forall k, l :: 0 <= k < l < |s.calls| ==> s.calls[k].invoked < s.calls[l].invoked
    ensures forall k, l :: 0 <= k < l < |s'.calls| ==> s'.calls[k].invoked < s'.calls[l].invoked
  {
    forall k, l | 0 <= k < l < |s'.calls| ensures s'.calls[k].invoked < s'.calls[l].invoked {
      InvokedStays(s, s', a, k);
      if l < |s.calls| {
        InvokedStays(s, s', a, l);
      }
    }
  }

  lemma TiedStep(run: seq<State>, actions: seq<Action>, n: nat)
    requires Execution(run, actions) && n < |actions| && Tied(run, actions, n)
    ensures Tied(run, actions, n + 1)
  {
    var next := n + 1;
    ActionRight(run, actions, n);
    assert run[next].clock == next;
    forall k | 0 <= k < |run[next].calls| ensures RecordOk(run, actions, next, k) {
      RecordsNext(run, actions, n, k);
    }
    forall k | 0 <= k < |run[n].calls| ensures run[n].calls[k].invoked < n {
      assert RecordOk(run, actions, n, k);
    }
    RecordsAscend(run[n], run[next], actions[n]);
    forall i | 0 <= i < next && IsCall(actions[i]) ensures IsRecorded(run[next], i) {
      RecordedStays(run[n], run[next], actions[n], i);
    }
  }

  /** In every run the call records are those of the calls that the clients made. */
  lemma {:induction false} RunsAreTied(run: seq<State>, actions: seq<Action>, n: nat)
    requires Execution(run, actions) && n < |run|
    ensures Tied(run, actions, n)
  {
    if n > 0 {
      RunsAreTied(run, actions, n - 1);
      TiedStep(run, actions, n - 1);
    }
  }

  /** The actions that made the calls of a log. */
  function Makers(log: seq<Event>, calls: seq<Call>): (order: seq<nat>)
    requires forall p :: 0 <= p < |log| ==> log[p].call < |calls|
    ensures |order| == |log| && forall p :: 0 <= p < |log| ==> order[p] == calls[log[p].call].invoked
  {
    if log == [] then [] else Makers(log[..|log| - 1], calls) + [calls[log[|log| - 1].call].invoked]
  }

  /** The register's content is told by the actions as it is by the log. */
  lemma {:induction false} SameContent(log: seq<Event>, calls: seq<Call>, actions: seq<Action>, order: seq<nat>, c: nat)
    requires |order| == |log| && forall p :: 0 <= p < |log| ==> MadeBy(log[p], actions, order[p])
    ensures Content(actions, order, c) == Register(log, c)
  {
    if log != [] {
      SameContent(log[..|log| - 1], calls, actions, order[..|log| - 1], c);
      assert MadeBy(log[|log| - 1], actions, order[|log| - 1]);
    }
  }

  predicate MadeBy(e: Event, actions: seq<Action>, i: nat) {
    i < |actions| && IsCall(actions[i]) && e.cell == actions[i].cell && e.op == OpOf(actions[i])
  }

  lemma EventMaker(run: seq<State>, actions: seq<Action>, p: nat)
    requires Execution(run, actions) && p < |run[|actions|].log|
    ensures var s := run[|actions|];
      s.log[p].call < |s.calls| && MadeBy(s.log[p], actions, s.calls[s.log[p].call].invoked)
  {
    RunsHaveHistory(run, actions, |actions|);
    RunsAreTied(run, actions, |actions|);
    var s := run[|actions|];
    assert LogOk(s, p) && RecordOk(run, actions, |actions|, s.log[p].call);
  }

  lemma NotReturned(run: seq<State>, actions: seq<Action>, i: nat, j: nat)
    requires |run| == |actions| + 1 && i < |actions| && IsCall(actions[i])
    requires forall m :: i < m < |run| ==> Busy(run[m], actions[i].t)
    ensures !Returned(run, actions, i, j)
  {
    if j < |actions| {
      assert i < j ==> Busy(run[j + 1], actions[i].t);
    }
  }

  lemma ReturnedOnce(run: seq<State>, actions: seq<Action>, i: nat, j: nat, k: nat)
    requires Returned(run, actions, i, j) && j < k
    ensures !Returned(run, actions, i, k)
  {
    assert !Busy(run[j + 1], actions[i].t);
  }

  /** A call that has returned has one record, with the same response. */
  lemma ReturnedRecord(run: seq<State>, actions: seq<Action>, i: nat, j: nat) returns (k: nat)
    requires Execution(run, actions) && Returned(run, actions, i, j)
    ensures var calls := run[|actions|].calls;
      && k < |calls| && calls[k].invoked == i && Makes(actions[i], calls[k])
      && calls[k].response.Some? && calls[k].response.value.time == j
      && Gains(run, j, actions[i].t, calls[k].response.value.value)
      && (!Returns(calls[k].op) ==> calls[k].response.value.value == 0)
  {
    var n := |actions|;
    RunsAreTied(run, actions, n);
    assert IsRecorded(run[n], i);
    k :| 0 <= k < |run[n].calls| && run[n].calls[k].invoked == i;
    assert RecordOk(run, actions, n, k);
    var c := run[n].calls[k];
    if c.response.None? {
      NotReturned(run, actions, i, j);
    } else {
      var time := c.response.value.time;
      if time < j {
        ReturnedOnce(run, actions, i, time, j);
      } else if j < time {
        ReturnedOnce(run, actions, i, j, time);
      }
    }
  }

  lemma ReturnedExplained(order: seq<nat>, run: seq<State>, actions: seq<Action>, i: nat, j: nat)
    requires Execution(run, actions) && Returned(run, actions, i, j)
    requires var s := run[|actions|];
      && |order| == |s.log|
      && forall p :: 0 <= p < |s.log| ==> s.log[p].call < |s.calls| && order[p] == s.calls[s.log[p].call].invoked
    ensures Explained(order, run, actions, i, j)
  {
    var s := run[|actions|];
    var k := ReturnedRecord(run, actions, i, j);
    RunsHaveHistory(run, actions, |actions|);
    assert CallOk(s, k);
    var p := s.calls[k].effect.value.index;
    assert LogOk(s, p);
    forall q | 0 <= q < p ensures MadeBy(s.log[q], actions, order[q]) {
      EventMaker(run, actions, q);
    }
    SameContent(s.log[..p], s.calls, actions, order[..p], actions[i].cell);
    assert s.log[p].ret == Register(s.log[..p], s.log[p].cell);
    assert order[p] == i && Gains(run, j, actions[i].t, Due(actions, order[..p], i));
  }

  /** Reference, assign and move are linearizable to a register for each cell, for any
      number of threads and cells and any interleaving of their steps. */
  lemma Linearizable(run: seq<State>, actions: seq<Action>) returns (order: seq<nat>)
    requires Execution(run, actions)
    ensures Linearizes(order, run, actions)
  {
    var s := run[|actions|];
    forall p | 0 <= p < |s.log| ensures s.log[p].call < |s.calls| {
      EventMaker(run, actions, p);
    }
    order := Makers(s.log, s.calls);
    forall p | 0 <= p < |order| ensures order[p] < |actions| && IsCall(actions[order[p]]) {
      EventMaker(run, actions, p);
    }
    forall p, q | 0 <= p < q < |order| ensures order[p] != order[q] {
      MadeOnce(run, actions, p, q);
    }
    forall i: nat, j: nat | Returned(run, actions, i, j) ensures Explained(order, run, actions, i, j) {
      ReturnedExplained(order, run, actions, i, j);
    }
    forall p, q, j: nat | 0 <= p < |order| && 0 <= q < |order| && Returned(run, actions, order[p], j) && j < order[q]
      ensures p < q
    {
      KeepsOrder(run, actions, p, q, j);
    }
  }

  lemma MadeOnce(run: seq<State>, actions: seq<Action>, p: nat, q: nat)
    requires Execution(run, actions) && p < q < |run[|actions|].log|
    ensures var s := run[|actions|];
      && s.log[p].call < |s.calls| && s.log[q].call < |s.calls|
      && s.calls[s.log[p].call].invoked != s.calls[s.log[q].call].invoked
  {
    LogExplains(run, actions, |actions|);
    RunsAreTied(run, actions, |actions|);
  }

  lemma KeepsOrder(run: seq<State>, actions: seq<Action>, p: nat, q: nat, j: nat)
    requires Execution(run, actions) && p < |run[|actions|].log| && q < |run[|actions|].log|
    requires var s := run[|actions|];
      && s.log[p].call < |s.calls| && s.log[q].call < |s.calls|
      && Returned(run, actions, s.calls[s.log[p].call].invoked, j) && j < s.calls[s.log[q].call].invoked
    ensures p < q
  {
    var s := run[|actions|];
    LogExplains(run, actions, |actions|);
    RunsAreTied(run, actions, |actions|);
    var k := ReturnedRecord(run, actions, s.calls[s.log[p].call].invoked, j);
    assert k == s.log[p].call;
    assert Precedes(s.calls, s.log[p].call, s.log[q].call);
  }

  /** The references that a thread gives away with an action, and those that it gets at
      once; what a call gives it comes when the call returns. */
  function Given(a: Action, t: nat): multiset<nat> {
    match a
    case Drop(u, obj) => if u == t then multiset{obj} else multiset{}
    case HandOver(u, _, obj) => if u == t then multiset{obj} else multiset{}
    case CallStore(u, _, obj, kind) => if u == t && kind.Move? then One(obj) else multiset{}
    case _ => multiset{}
  }

  function Taken(a: Action, t: nat): multiset<nat> {
    match a
    case Create(u, obj) => if u == t then multiset{obj} else multiset{}
    case Duplicate(u, obj) => if u == t then multiset{obj} else multiset{}
    case HandOver(_, u, obj) => if u == t then multiset{obj} else multiset{}
    case _ => multiset{}
  }

  lemma ActOwned(s: State, a: Action, t: nat)
    requires Inv(s) && Enabled(s, a) && !a.Run? && t < |s.threads|
    ensures t < |Act(s, a).threads|
    ensures Act(s, a).threads[t].owned == s.threads[t].owned - Given(a, t) + Taken(a, t)
    ensures Given(a, t) <= s.threads[t].owned
  {
    if a.HandOver? {
      HandOverOwned(s, a, t);
    } else if a.Duplicate? {
      Referenced(s, a.t, a.obj);
      DuplicateOwned(s, a, t);
    } else if a.CallStore? {
      CallOwned(s, a, t);
    } else {
      OtherOwned(s, a, t);
    }
  }

  lemma DuplicateOwned(s: State, a: Action, t: nat)
    requires s.w >= 2 && Enabled(s, a) && a.Duplicate? && t < |s.threads|
    requires a.obj in s.heap && s.heap[a.obj] > 0
    ensures t < |Act(s, a).threads|
    ensures Act(s, a).threads[t].owned == s.threads[t].owned - Given(a, t) + Taken(a, t)
  {
  }

  lemma CallOwned(s: State, a: Action, t: nat)
    requires s.w >= 2 && Enabled(s, a) && a.CallStore? && t < |s.threads|
    ensures t < |Act(s, a).threads| && Given(a, t) <= s.threads[t].owned
    ensures Act(s, a).threads[t].owned == s.threads[t].owned - Given(a, t) + Taken(a, t)
  {
  }

  lemma OtherOwned(s: State, a: Action, t: nat)
    requires s.w >= 2 && Enabled(s, a) && t < |s.threads|
    requires a.Spawn? || a.NewCell? || a.Create? || a.Drop? || a.CallLoad?
    ensures t < |Act(s, a).threads| && Given(a, t) <= s.threads[t].owned
    ensures Act(s, a).threads[t].owned == s.threads[t].owned - Given(a, t) + Taken(a, t)
  {
  }

  lemma HandOverOwned(s: State, a: Action, t: nat)
    requires s.w >= 2 && Enabled(s, a) && a.HandOver? && t < |s.threads|
    ensures t < |Act(s, a).threads|
    ensures Act(s, a).threads[t].owned == s.threads[t].owned - Given(a, t) + Taken(a, t)
  {
  }

  /** Thread t comes to the end of a call with action n. */
  ghost predicate ReturnsNow(run: seq<State>, actions: seq<Action>, n: nat, t: nat) {
    exists i: nat :: Returned(run, actions, i, n) && actions[i].t == t
  }

  /** The references of a thread change only as its clients want: with what it gives and
      takes by its actions, and with what its calls return. */
  lemma OwnedExactly(run: seq<State>, actions: seq<Action>, n: nat, t: nat)
    requires Execution(run, actions) && n < |actions| && t < |run[n].threads|
    ensures t < |run[n + 1].threads|
    ensures actions[n].Run? && !ReturnsNow(run, actions, n, t) ==>
      run[n + 1].threads[t].owned == run[n].threads[t].owned
    ensures !actions[n].Run? ==>
      && Given(actions[n], t) <= run[n].threads[t].owned
      && run[n + 1].threads[t].owned == run[n].threads[t].owned - Given(actions[n], t) + Taken(actions[n], t)
  {
    RunsHaveHistory(run, actions, n);
    if actions[n].Run? {
      StepOwned(run, actions, n, t);
    } else {
      ActOwned(run[n], actions[n], t);
    }
  }

  lemma StepOwned(run: seq<State>, actions: seq<Action>, n: nat, t: nat)
    requires Execution(run, actions) && n < |actions| && t < |run[n].threads| && actions[n].Run?
    ensures t < |run[n + 1].threads|
    ensures run[n + 1].threads[t].owned == run[n].threads[t].owned || ReturnsNow(run, actions, n, t)
  {
    var s, s', u := run[n], run[n + 1], actions[n].t;
    ActionRight(run, actions, n);
    RunsHaveHistory(run, actions, n);
    RunsAreTied(run, actions, n);
    if t == u && s.threads[t].call.Some? && s'.threads[t].pc.Idle? {
      assert ThreadCall(s, t);
      var k := s.threads[t].call.value;
      assert RecordOk(run, actions, n, k) && StillOn(run, n, k);
      assert Returned(run, actions, s.calls[k].invoked, n);
    }
  }
}
