/**
 Asynchronous procedure calls that keep the driver and their carrier alive.

 A waiter creates a carrier object with an APC in it, references it for the APC,
 and queues the APC to another thread.  The APC is delivered to that thread, run
 down when the thread exits, or removed by the waiter when its wait times out.
 Each action below is one step of the waiter or of the target thread, and any
 number of such instances run at the same time.
 */
module KernelApc {

  datatype WaiterPc =
    | Creating | Referencing | PinningDriver | Inserting
    | UnpinningDriver | Unreferencing
    | Waiting | Removing | CleaningRemoved | UnpinningRemoved
    | Copying | Releasing | Finished

  datatype ApcPc =
    | NotQueued | Queued | InKernelRoutine | Captured | KernelRoutineDone
    | NormalPending | NormalDone | Cleaning | Unpinning | Over
    | Removed | RemovedOver

  /** What the routine field of the APC record points to. */
  datatype Routine = KernelRoutine | NormalRoutine

  /** The object that carries the APC: its count, how often it was freed, and
      whether it was used after that. */
  datatype Carrier = Carrier(created: bool, count: nat, freed: nat, fault: bool)

  /** How often the cleanup routine ran, and the driver was referenced and dereferenced. */
  datatype Tally = Tally(cleanups: nat, pins: nat, unpins: nat)

  datatype Marks = Marks(captured: bool, signaled: bool, copied: bool)

  /** `userMode`, `waits` and `timed` never change. */
  datatype Instance = Instance(
    waiter: WaiterPc, apc: ApcPc, userMode: bool, waits: bool, timed: bool,
    carrier: Carrier, routine: Routine, tally: Tally, marks: Marks)

  datatype Action =
    | Create(ok: bool)
    | Reference
    | PinDriver
    | Insert(ok: bool)
    | UnpinDriver
    | Unreference
    | GiveUpWaiting
    | Wake
    | TimeOut
    | Remove(available: bool)
    | CleanRemoved
    | UnpinRemoved
    | Copy
    | Release
    | Deliver
    | RunDown
    | Capture
    | Signal
    | LeaveKernelRoutine(normal: bool)
    | RunNormalRoutine
    | LeaveNormalRoutine
    | Clean
    | Unpin

  /** Any access to the carrier. */
  function Touch(c: Carrier): Carrier {
    c.(fault := c.fault || c.count == 0)
  }

  /** KphDereferenceObject. */
  function Drop(c: Carrier): Carrier {
    if c.count == 0 then c.(fault := true)
    else if c.count == 1 then c.(count := 0, freed := c.freed + 1)
    else c.(count := c.count - 1)
  }

  /** A call through the routine field. */
  function Call(x: Instance, routine: Routine): Carrier {
    Touch(x.carrier).(fault := x.carrier.fault || x.carrier.count == 0 || x.routine != routine)
  }

  predicate Inserted(x: Instance) {
    x.apc != NotQueued
  }

  predicate Enabled(x: Instance, a: Action) {
    match a
    case Create(_) => x.waiter == Creating
    case Reference => x.waiter == Referencing
    case PinDriver => x.waiter == PinningDriver
    case Insert(_) => x.waiter == Inserting
    case UnpinDriver => x.waiter == UnpinningDriver
    case Unreference => x.waiter == Unreferencing
    case GiveUpWaiting => x.waiter == Waiting && !x.waits
    case Wake => x.waiter == Waiting && x.waits && x.marks.signaled
    case TimeOut => x.waiter == Waiting && x.waits && x.timed
    case Remove(_) => x.waiter == Removing
    case CleanRemoved => x.waiter == CleaningRemoved
    case UnpinRemoved => x.waiter == UnpinningRemoved
    case Copy => x.waiter == Copying
    case Release => x.waiter == Releasing
    case Deliver => x.apc == Queued
    case RunDown => x.apc == Queued
    case Capture => x.apc == InKernelRoutine
    case Signal => x.apc == Captured
    case LeaveKernelRoutine(_) => x.apc == KernelRoutineDone
    case RunNormalRoutine => x.apc == NormalPending
    case LeaveNormalRoutine => x.apc == NormalDone
    case Clean => x.apc == Cleaning
    case Unpin => x.apc == Unpinning
  }

  function Step(x: Instance, a: Action): Instance {
    match a
    // KphCaptureStackBackTraceThread, KphpInitThreadContextInOriginalEnvironment
    case Create(ok) =>
      if ok then x.(waiter := Referencing, carrier := Carrier(true, 1, 0, false)) else x.(waiter := Finished)
    case Reference => x.(waiter := PinningDriver, carrier := Touch(x.carrier).(count := x.carrier.count + 1))
    // KsiInsertQueueApc
    case PinDriver => x.(waiter := Inserting, carrier := Touch(x.carrier), tally := x.tally.(pins := x.tally.pins + 1))
    case Insert(ok) =>
      if ok then x.(waiter := Waiting, apc := Queued, carrier := Touch(x.carrier))
      else x.(waiter := UnpinningDriver, carrier := Touch(x.carrier))
    case UnpinDriver => x.(waiter := Unreferencing, tally := x.tally.(unpins := x.tally.unpins + 1))
    case Unreference => x.(waiter := Releasing, carrier := Drop(x.carrier))
    // the waiter that does not wait, wakes, or times out
    case GiveUpWaiting => x.(waiter := Releasing)
    case Wake => x.(waiter := Copying)
    case TimeOut => x.(waiter := Removing)
    // KsiRemoveQueueApc
    case Remove(available) =>
      if available && x.apc == Queued then x.(waiter := CleaningRemoved, apc := Removed, carrier := Touch(x.carrier))
      else x.(waiter := Releasing, carrier := Touch(x.carrier))
    case CleanRemoved =>
      x.(waiter := UnpinningRemoved, carrier := Drop(x.carrier), tally := x.tally.(cleanups := x.tally.cleanups + 1))
    case UnpinRemoved => x.(waiter := Releasing, apc := RemovedOver, tally := x.tally.(unpins := x.tally.unpins + 1))
    case Copy => x.(waiter := Releasing, carrier := Touch(x.carrier), marks := x.marks.(copied := true))
    case Release => x.(waiter := Finished, carrier := Drop(x.carrier))
    // KsipApcKernelRoutine, with the kernel routine of the user in between
    case Deliver => x.(apc := InKernelRoutine, carrier := Call(x, KernelRoutine))
    case Capture => x.(apc := Captured, carrier := Touch(x.carrier), marks := x.marks.(captured := true))
    case Signal => x.(apc := KernelRoutineDone, carrier := Touch(x.carrier), marks := x.marks.(signaled := true))
    case LeaveKernelRoutine(normal) =>
      if !x.userMode && normal then x.(apc := NormalPending, carrier := Touch(x.carrier), routine := NormalRoutine)
      else x.(apc := Cleaning, carrier := Touch(x.carrier))
    // KsipApcNormalRoutine
    case RunNormalRoutine => x.(apc := NormalDone, carrier := Call(x, NormalRoutine))
    case LeaveNormalRoutine => x.(apc := Cleaning)
    // KsipApcRundownRoutine
    case RunDown => x.(apc := Cleaning, carrier := Touch(x.carrier))
    case Clean => x.(apc := Unpinning, carrier := Drop(x.carrier), tally := x.tally.(cleanups := x.tally.cleanups + 1))
    case Unpin => x.(apc := Over, tally := x.tally.(unpins := x.tally.unpins + 1))
  }

  /** The reference that the waiter holds for itself. */
  predicate WaiterHolds(x: Instance) {
    x.waiter != Creating && x.waiter != Finished
  }

  /** The APC is queued or being executed, and its cleanup is still to come. */
  predicate Pending(x: Instance) {
    x.apc != NotQueued && x.apc != Unpinning && x.apc != Over && x.apc != RemovedOver
    && !(x.apc == Removed && x.waiter == UnpinningRemoved)
  }

  /** The reference that is held for the APC. */
  predicate ApcHolds(x: Instance) {
    || Pending(x) || x.waiter == PinningDriver || x.waiter == Inserting
    || x.waiter == UnpinningDriver || x.waiter == Unreferencing
  }

  /** The reference to the driver. */
  predicate Pinned(x: Instance) {
    || x.waiter == Inserting || x.waiter == UnpinningDriver
    || (x.apc != NotQueued && x.apc != Over && x.apc != RemovedOver)
  }

  predicate Early(w: WaiterPc) {
    || w == Creating || w == Referencing || w == PinningDriver || w == Inserting
    || w == UnpinningDriver || w == Unreferencing
  }

  predicate CarrierOk(x: Instance) {
    && !x.carrier.fault
    && x.carrier.count == (if WaiterHolds(x) then 1 else 0) + (if ApcHolds(x) then 1 else 0)
    && x.carrier.freed == (if x.carrier.created && x.carrier.count == 0 then 1 else 0)
    && (WaiterHolds(x) || Inserted(x) ==> x.carrier.created) && (x.waiter == Creating ==> !x.carrier.created)
  }

  predicate TallyOk(x: Instance) {
    && x.tally.pins == x.tally.unpins + (if Pinned(x) then 1 else 0)
    && x.tally.cleanups == (if Inserted(x) && !Pending(x) then 1 else 0)
  }

  predicate OrderOk(x: Instance) {
    && (Early(x.waiter) ==> !Inserted(x))
    && (x.waiter == Waiting || x.waiter == Removing || x.waiter == Copying ==> Inserted(x) && x.apc != RemovedOver)
    && ((x.apc == Removed) == (x.waiter == CleaningRemoved || x.waiter == UnpinningRemoved))
    && (x.apc == Captured ==> x.marks.captured) && (x.marks.signaled ==> x.marks.captured)
    && (x.waiter == Copying ==> x.marks.captured) && (x.marks.copied ==> x.marks.captured)
    && (x.apc == NotQueued || x.apc == Queued ==> x.routine == KernelRoutine)
    && (x.apc == NormalPending ==> x.routine == NormalRoutine)
  }

  predicate Inv(x: Instance) {
    CarrierOk(x) && TallyOk(x) && OrderOk(x)
  }

  function Start(userMode: bool, waits: bool, timed: bool): Instance {
    Instance(Creating, NotQueued, userMode, waits, timed, Carrier(false, 0, 0, false), KernelRoutine,
             Tally(0, 0, 0), Marks(false, false, false))
  }

  /** How many more steps an instance can take at most. */
  function Rank(x: Instance): nat {
    WaiterRank(x.waiter) + ApcRank(x.apc)
  }

  function WaiterRank(w: WaiterPc): nat {
    match w
    case Creating => 20
    case Referencing => 19
    case PinningDriver => 18
    case Inserting => 17
    case UnpinningDriver => 3
    case Unreferencing => 2
    case Waiting => 5
    case Removing => 4
    case CleaningRemoved => 3
    case UnpinningRemoved => 2
    case Copying => 2
    case Releasing => 1
    case Finished => 0
  }

  function ApcRank(p: ApcPc): nat {
    match p
    case NotQueued => 0
    case Queued => 9
    case InKernelRoutine => 8
    case Captured => 7
    case KernelRoutineDone => 6
    case NormalPending => 5
    case NormalDone => 4
    case Cleaning => 3
    case Unpinning => 2
    case Over => 0
    case Removed => 1
    case RemovedOver => 0
  }

  lemma CreatingKeeps(x: Instance, a: Action)
    requires Inv(x) && Enabled(x, a) && (a.Create? || a.Reference?)
    ensures Inv(Step(x, a)) && Rank(Step(x, a)) < Rank(x)
  {
  }

  lemma PinningKeeps(x: Instance, a: Action)
    requires Inv(x) && Enabled(x, a) && (a.PinDriver?)
    ensures Inv(Step(x, a)) && Rank(Step(x, a)) < Rank(x)
  {
  }

  lemma InsertingKeeps(x: Instance, a: Action)
    requires Inv(x) && Enabled(x, a) && (a.Insert?)
    ensures Inv(Step(x, a)) && Rank(Step(x, a)) < Rank(x)
  {
  }

  lemma UndoingKeeps(x: Instance, a: Action)
    requires Inv(x) && Enabled(x, a) && (a.UnpinDriver? || a.Unreference?)
    ensures Inv(Step(x, a)) && Rank(Step(x, a)) < Rank(x)
  {
  }

  lemma WaitingKeeps(x: Instance, a: Action)
    requires Inv(x) && Enabled(x, a) && (a.GiveUpWaiting? || a.Wake? || a.TimeOut?)
    ensures Inv(Step(x, a)) && Rank(Step(x, a)) < Rank(x)
  {
  }

  lemma LeavingKeeps(x: Instance, a: Action)
    requires Inv(x) && Enabled(x, a) && (a.Copy? || a.Release?)
    ensures Inv(Step(x, a)) && Rank(Step(x, a)) < Rank(x)
  {
  }

  lemma RemovingKeeps(x: Instance, a: Action)
    requires Inv(x) && Enabled(x, a) && a.Remove? && a.available && x.apc == Queued
    ensures Inv(Step(x, a)) && Rank(Step(x, a)) < Rank(x)
  {
  }

  lemma TooLateKeeps(x: Instance, a: Action)
    requires Inv(x) && Enabled(x, a) && a.Remove? && !(a.available && x.apc == Queued)
    ensures Inv(Step(x, a)) && Rank(Step(x, a)) < Rank(x)
  {
  }

  lemma RemovedKeeps(x: Instance, a: Action)
    requires Inv(x) && Enabled(x, a) && (a.CleanRemoved? || a.UnpinRemoved?)
    ensures Inv(Step(x, a)) && Rank(Step(x, a)) < Rank(x)
  {
  }

  lemma DeliveringKeeps(x: Instance, a: Action)
    requires Inv(x) && Enabled(x, a) && (a.Deliver? || a.RunDown?)
    ensures Inv(Step(x, a)) && Rank(Step(x, a)) < Rank(x)
  {
  }

  lemma CapturingKeeps(x: Instance, a: Action)
    requires Inv(x) && Enabled(x, a) && (a.Capture? || a.Signal?)
    ensures Inv(Step(x, a)) && Rank(Step(x, a)) < Rank(x)
  {
  }

  lemma KernelRoutineKeeps(x: Instance, a: Action)
    requires Inv(x) && Enabled(x, a) && (a.LeaveKernelRoutine?)
    ensures Inv(Step(x, a)) && Rank(Step(x, a)) < Rank(x)
  {
  }

  lemma NormalRoutineKeeps(x: Instance, a: Action)
    requires Inv(x) && Enabled(x, a) && (a.RunNormalRoutine? || a.LeaveNormalRoutine?)
    ensures Inv(Step(x, a)) && Rank(Step(x, a)) < Rank(x)
  {
  }

  lemma CleaningKeeps(x: Instance, a: Action)
    requires Inv(x) && Enabled(x, a) && (a.Clean?)
    ensures Inv(Step(x, a)) && Rank(Step(x, a)) < Rank(x)
  {
  }

  lemma UnpinningKeeps(x: Instance, a: Action)
    requires Inv(x) && Enabled(x, a) && (a.Unpin?)
    ensures Inv(Step(x, a)) && Rank(Step(x, a)) < Rank(x)
  {
  }

  /** Whatever one step does, counts and references stay right, nothing that was
      freed is used, and the run comes nearer to its end. */
  lemma StepKeeps(x: Instance, a: Action)
    requires Inv(x) && Enabled(x, a)
    ensures Inv(Step(x, a)) && Rank(Step(x, a)) < Rank(x)
  {
    match a
    case Create(_) => CreatingKeeps(x, a);
    case Reference => CreatingKeeps(x, a);
    case PinDriver => PinningKeeps(x, a);
    case Insert(_) => InsertingKeeps(x, a);
    case UnpinDriver => UndoingKeeps(x, a);
    case Unreference => UndoingKeeps(x, a);
    case GiveUpWaiting => WaitingKeeps(x, a);
    case Wake => WaitingKeeps(x, a);
    case TimeOut => WaitingKeeps(x, a);
    case Copy => LeavingKeeps(x, a);
    case Release => LeavingKeeps(x, a);
    case Remove(available) =>
      if available && x.apc == Queued {
        RemovingKeeps(x, a);
      } else {
        TooLateKeeps(x, a);
      }
    case CleanRemoved => RemovedKeeps(x, a);
    case UnpinRemoved => RemovedKeeps(x, a);
    case Deliver => DeliveringKeeps(x, a);
    case RunDown => DeliveringKeeps(x, a);
    case Capture => CapturingKeeps(x, a);
    case Signal => CapturingKeeps(x, a);
    case LeaveKernelRoutine(_) => KernelRoutineKeeps(x, a);
    case RunNormalRoutine => NormalRoutineKeeps(x, a);
    case LeaveNormalRoutine => NormalRoutineKeeps(x, a);
    case Clean => CleaningKeeps(x, a);
    case Unpin => UnpinningKeeps(x, a);
  }

  /** Nobody has anything left to do. */
  predicate Quiet(x: Instance) {
    x.waiter == Finished && (x.apc == NotQueued || x.apc == Over || x.apc == RemovedOver)
  }

  /** The thread exited before the APC ran, and the waiter waits without a timeout
      for an event that nobody will set. */
  predicate Stranded(x: Instance) {
    x.waiter == Waiting && x.waits && !x.timed && !x.marks.signaled && x.apc == Over
  }

  /** An instance comes to rest when it is quiet, or stranded, and only then. */
  lemma AtRest(x: Instance)
    requires Inv(x)
    ensures (forall a :: !Enabled(x, a)) <==> Quiet(x) || Stranded(x)
  {
    if !Quiet(x) && !Stranded(x) {
      assert exists a :: Enabled(x, a) by {
        WaiterMoves(x);
        ApcMoves(x);
      }
    }
  }

  lemma ApcMoves(x: Instance)
    requires Inv(x)
    ensures x.apc == NotQueued || x.apc == Over || x.apc == RemovedOver || exists a :: Enabled(x, a)
  {
    match x.apc
    case NotQueued =>
    case Queued => assert Enabled(x, Deliver);
    case InKernelRoutine => assert Enabled(x, Capture);
    case Captured => assert Enabled(x, Signal);
    case KernelRoutineDone => assert Enabled(x, LeaveKernelRoutine(false));
    case NormalPending => assert Enabled(x, RunNormalRoutine);
    case NormalDone => assert Enabled(x, LeaveNormalRoutine);
    case Cleaning => assert Enabled(x, Clean);
    case Unpinning => assert Enabled(x, Unpin);
    case Over =>
    case Removed => WaiterMoves(x);
    case RemovedOver =>
  }

  /** The waiter waits without a timeout, and the event is not set. */
  predicate Waits(x: Instance) {
    x.waiter == Waiting && x.waits && !x.timed && !x.marks.signaled
  }

  lemma WaiterMoves(x: Instance)
    requires Inv(x)
    ensures x.waiter == Finished || Waits(x) || exists a :: Enabled(x, a)
  {
    match x.waiter
    case Creating => assert Enabled(x, Create(true));
    case Referencing => assert Enabled(x, Reference);
    case PinningDriver => assert Enabled(x, PinDriver);
    case Inserting => assert Enabled(x, Insert(true));
    case UnpinningDriver => assert Enabled(x, UnpinDriver);
    case Unreferencing => assert Enabled(x, Unreference);
    case Waiting =>
      if !x.waits {
        assert Enabled(x, GiveUpWaiting);
      } else if x.marks.signaled {
        assert Enabled(x, Wake);
      } else if x.timed {
        assert Enabled(x, TimeOut);
      }
    case Removing => assert Enabled(x, Remove(true));
    case CleaningRemoved => assert Enabled(x, CleanRemoved);
    case UnpinningRemoved => assert Enabled(x, UnpinRemoved);
    case Copying => assert Enabled(x, Copy);
    case Releasing => assert Enabled(x, Release);
    case Finished =>
  }

  /** What holds of an instance at any time. */
  lemma Meaning(x: Instance)
    requires Inv(x)
    ensures (x.apc == InKernelRoutine || x.apc == Captured || x.apc == NormalDone) ==> x.carrier.count > 0
    ensures x.marks.copied ==> x.marks.captured
    ensures x.carrier.freed <= 1 && x.tally.cleanups <= 1
    ensures x.carrier.freed == 1 <==> x.carrier.created && x.carrier.count == 0
    ensures x.tally.cleanups == 1 ==> Inserted(x)
    ensures x.tally.unpins <= x.tally.pins <= x.tally.unpins + 1
  {
  }

  /** And of one that nobody has anything to do with any more: the carrier was freed
      once, every insertion led to one cleanup, and the driver is not referenced. */
  lemma QuietMeaning(x: Instance)
    requires Inv(x) && Quiet(x)
    ensures x.carrier.freed == (if x.carrier.created then 1 else 0)
    ensures x.tally.cleanups == (if Inserted(x) then 1 else 0) && x.tally.pins == x.tally.unpins
  {
  }

  /** An instance after a number of steps. */
  function After(x: Instance, acts: seq<Action>): Instance {
    if acts == [] then x else Step(After(x, acts[..|acts| - 1]), acts[|acts| - 1])
  }

  predicate Possible(x: Instance, acts: seq<Action>) {
    acts == [] || (Possible(x, acts[..|acts| - 1]) && Enabled(After(x, acts[..|acts| - 1]), acts[|acts| - 1]))
  }

  /** Every run of an instance is safe, and ends after at most twenty steps. */
  lemma {:induction false} RunKeeps(x: Instance, acts: seq<Action>)
    requires Inv(x) && Possible(x, acts)
    ensures Inv(After(x, acts)) && |acts| + Rank(After(x, acts)) <= Rank(x)
  {
    if acts != [] {
      var n := |acts| - 1;
      RunKeeps(x, acts[..n]);
      StepKeeps(After(x, acts[..n]), acts[n]);
    }
  }

  lemma FixedStep(x: Instance, a: Action)
    ensures var y := Step(x, a); y.userMode == x.userMode && y.waits == x.waits && y.timed == x.timed
  {
  }

  /** The mode of the APC and the way its waiter waits never change. */
  lemma {:induction false} Fixed(x: Instance, acts: seq<Action>)
    ensures var y := After(x, acts); y.userMode == x.userMode && y.waits == x.waits && y.timed == x.timed
  {
    if acts != [] {
      Fixed(x, acts[..|acts| - 1]);
      FixedStep(After(x, acts[..|acts| - 1]), acts[|acts| - 1]);
    }
  }

  predicate Late(p: ApcPc) {
    p == Cleaning || p == Unpinning || p == Over
  }

  /** The event is set on the way through the kernel routine, and on no other, and a
      waiter without a timeout waits until it is. */
  predicate Marked(x: Instance, ranDown: bool) {
    && (x.apc == KernelRoutineDone || x.apc == NormalPending || x.apc == NormalDone ==> x.marks.signaled)
    && (x.marks.signaled ==> Late(x.apc) || x.apc == KernelRoutineDone || x.apc == NormalPending || x.apc == NormalDone)
    && (ranDown <==> Late(x.apc) && !x.marks.signaled)
    && (x.waits && !x.timed && Inserted(x) && !x.marks.signaled ==> x.waiter == Waiting)
  }

  lemma StepMarked(x: Instance, a: Action, ranDown: bool)
    requires Marked(x, ranDown) && Inv(x) && Enabled(x, a)
    ensures Marked(Step(x, a), ranDown || a == RunDown)
  {
  }

  ghost predicate RunIsMarked(x: Instance, acts: seq<Action>) {
    Marked(After(x, acts), RunDown in acts)
  }

  lemma OneMoreMarked(x: Instance, acts: seq<Action>, a: Action)
    requires Inv(x) && Possible(x, acts + [a]) && RunIsMarked(x, acts)
    ensures RunIsMarked(x, acts + [a])
  {
    OneMore(x, acts, a);
    RunKeeps(x, acts);
    StepMarked(After(x, acts), a, RunDown in acts);
  }

  lemma {:induction false} RunMarked(userMode: bool, waits: bool, timed: bool, acts: seq<Action>)
    requires Possible(Start(userMode, waits, timed), acts)
    ensures RunIsMarked(Start(userMode, waits, timed), acts)
  {
    if acts != [] {
      var n := |acts| - 1;
      assert acts == acts[..n] + [acts[n]];
      RunMarked(userMode, waits, timed, acts[..n]);
      OneMoreMarked(Start(userMode, waits, timed), acts[..n], acts[n]);
    }
  }

  /** A run after which nobody can do anything. */
  ghost predicate Complete(x: Instance, acts: seq<Action>) {
    Possible(x, acts) && forall a :: !Enabled(After(x, acts), a)
  }

  /** How a run ends: with everything freed and cleaned up once, or, if the waiter
      has no timeout and the APC was run down, with a stranded waiter. */
  lemma CompleteRun(userMode: bool, waits: bool, timed: bool, acts: seq<Action>)
    requires Complete(Start(userMode, waits, timed), acts)
    ensures var x := After(Start(userMode, waits, timed), acts);
      && |acts| <= 20
      && (Stranded(x) <==> waits && !timed && RunDown in acts)
      && (!Stranded(x) ==> Quiet(x) && x.carrier.freed == (if x.carrier.created then 1 else 0)
                           && x.tally.cleanups == (if Inserted(x) then 1 else 0))
  {
    var x := Start(userMode, waits, timed);
    RunKeeps(x, acts);
    AtRest(After(x, acts));
    Fixed(x, acts);
    RunMarked(userMode, waits, timed, acts);
    if Quiet(After(x, acts)) {
      QuietMeaning(After(x, acts));
    }
  }

  lemma OneMore(x: Instance, acts: seq<Action>, a: Action)
    ensures After(x, acts + [a]) == Step(After(x, acts), a)
    ensures Possible(x, acts + [a]) <==> Possible(x, acts) && Enabled(After(x, acts), a)
  {
    assert (acts + [a])[..|acts|] == acts;
  }

  /** A run can be told by the instances that it goes through. */
  lemma Extends(x: Instance, acts: seq<Action>, y: Instance, a: Action, z: Instance)
    requires Possible(x, acts) && After(x, acts) == y && Enabled(y, a) && Step(y, a) == z
    ensures Possible(x, acts + [a]) && After(x, acts + [a]) == z
  {
    OneMore(x, acts, a);
  }

  /** An APC of either mode that is queued by a waiter that waits. */
  lemma QueuedRun(userMode: bool, timed: bool) returns (acts: seq<Action>)
    ensures Possible(Start(userMode, true, timed), acts)
    ensures acts == [Create(true), Reference, PinDriver, Insert(true)]
    ensures After(Start(userMode, true, timed), acts)
         == Instance(Waiting, Queued, userMode, true, timed, Carrier(true, 2, 0, false), KernelRoutine,
                     Tally(0, 1, 0), Marks(false, false, false))
  {
    var x0 := Start(userMode, true, timed);
    var x1 := Step(x0, Create(true));
    var x2 := Step(x1, Reference);
    var x3 := Step(x2, PinDriver);
    acts := [];
    Extends(x0, acts, x0, Create(true), x1);
    acts := acts + [Create(true)];
    Extends(x0, acts, x1, Reference, x2);
    acts := acts + [Reference];
    Extends(x0, acts, x2, PinDriver, x3);
    acts := acts + [PinDriver];
    Extends(x0, acts, x3, Insert(true), Step(x3, Insert(true)));
    acts := acts + [Insert(true)];
  }

  lemma StrandedRun(userMode: bool) returns (acts: seq<Action>)
    ensures var x := Start(userMode, true, false); Possible(x, acts) && Stranded(After(x, acts))
  {
    var x0 := Start(userMode, true, false);
    acts := QueuedRun(userMode, false);
    var x4 := After(x0, acts);
    var x5 := Step(x4, RunDown);
    var x6 := Step(x5, Clean);
    Extends(x0, acts, x4, RunDown, x5);
    acts := acts + [RunDown];
    Extends(x0, acts, x5, Clean, x6);
    acts := acts + [Clean];
    Extends(x0, acts, x6, Unpin, Step(x6, Unpin));
    acts := acts + [Unpin];
  }

  /** The target thread exits before the APC is delivered: the waiter is stranded. */
  lemma WaiterIsStranded(userMode: bool) returns (acts: seq<Action>)
    ensures var x := Start(userMode, true, false); Complete(x, acts) && Stranded(After(x, acts))
  {
    acts := StrandedRun(userMode);
    RunKeeps(Start(userMode, true, false), acts);
    AtRest(After(Start(userMode, true, false), acts));
  }

  /** Whatever the mode of the APC, every run of a waiter comes to its proper end, if
      and only if the waiter does not wait, or waits with a timeout. */
  lemma AlwaysQuiet(userMode: bool, waits: bool, timed: bool)
    ensures var x := Start(userMode, waits, timed);
      (forall acts :: Complete(x, acts) ==> Quiet(After(x, acts))) <==> !waits || timed
  {
    var x := Start(userMode, waits, timed);
    if !waits || timed {
      forall acts | Complete(x, acts) ensures Quiet(After(x, acts)) {
        CompleteRun(userMode, waits, timed, acts);
      }
    } else {
      var acts := WaiterIsStranded(userMode);
    }
  }

  /** The waiter has come to the end of its call, with its own reference left to drop. */
  predicate Leaving(w: WaiterPc) {
    w == Releasing || w == Finished
  }

  predicate Entered(p: ApcPc) {
    p == InKernelRoutine || p == Captured || p == KernelRoutineDone || p == NormalPending || p == NormalDone
  }

  predicate AskedToRemove(done: set<Action>) {
    Remove(true) in done || Remove(false) in done
  }

  /** Where the waiter stands, given what was done. */
  predicate WaiterTraced(x: Instance, done: set<Action>) {
    && (Create(true) in done || Create(false) in done <==> x.waiter != Creating)
    && (Create(true) in done <==> x.carrier.created) && (Create(false) in done ==> Leaving(x.waiter))
    && (Insert(true) in done <==> Inserted(x))
    && !(Create(true) in done && Create(false) in done) && !(Insert(true) in done && Insert(false) in done)
    && (Insert(false) in done ==> x.waiter == UnpinningDriver || x.waiter == Unreferencing || Leaving(x.waiter))
    && (Insert(true) in done || Insert(false) in done <==>
          x.carrier.created && x.waiter != Referencing && x.waiter != PinningDriver && x.waiter != Inserting)
  }

  /** The end of the wait. */
  predicate WaitTraced(x: Instance, done: set<Action>) {
    && (GiveUpWaiting in done ==> !x.waits && Leaving(x.waiter))
    && (Wake in done <==> x.waiter == Copying || x.marks.copied) && (x.marks.copied ==> Leaving(x.waiter))
    && (TimeOut in done <==> x.waiter == Removing || AskedToRemove(done))
    && (AskedToRemove(done) ==> x.apc == Removed || Leaving(x.waiter))
    && (x.waiter == Copying || x.waiter == Removing ==> x.waits)
    && (Wake in done || TimeOut in done ==> x.waits && x.waiter != Waiting && !(Wake in done && TimeOut in done))
    && (Leaving(x.waiter) && Inserted(x) ==> GiveUpWaiting in done || x.marks.copied || AskedToRemove(done))
  }

  /** Whether the APC was removed. */
  predicate RemovalTraced(x: Instance, done: set<Action>) {
    && (CleanRemoved in done <==> (x.apc == Removed && x.waiter == UnpinningRemoved) || x.apc == RemovedOver)
    && (x.apc == Removed || x.apc == RemovedOver ==> Remove(true) in done)
    && (Remove(true) in done ==> x.apc == Removed || x.apc == RemovedOver || Entered(x.apc) || Late(x.apc))
  }

  /** Where the APC stands. */
  predicate ApcTraced(x: Instance, done: set<Action>) {
    && (Deliver in done <==> Entered(x.apc) || (Late(x.apc) && x.marks.signaled))
    && (RunDown in done <==> Late(x.apc) && !x.marks.signaled)
    && (Capture in done <==> x.marks.captured) && (x.marks.captured <==> Deliver in done && x.apc != InKernelRoutine)
    && (Signal in done <==> x.marks.signaled)
    && (x.marks.signaled <==> Deliver in done && x.apc != InKernelRoutine && x.apc != Captured)
  }

  /** The normal routine. */
  predicate NormalTraced(x: Instance, done: set<Action>) {
    && (RunNormalRoutine in done ==> x.apc == NormalDone || Late(x.apc))
    && (x.apc == NormalPending || RunNormalRoutine in done <==>
          !x.userMode && LeaveKernelRoutine(true) in done)
    && (LeaveKernelRoutine(true) in done || LeaveKernelRoutine(false) in done <==>
          x.marks.signaled && x.apc != KernelRoutineDone)
    && (x.apc == NormalPending || x.apc == NormalDone ==> !x.userMode)
    && !(LeaveKernelRoutine(true) in done && LeaveKernelRoutine(false) in done)
    && (x.apc == NormalDone ==> RunNormalRoutine in done) && (x.apc == NormalPending ==> RunNormalRoutine !in done)
  }

  predicate Traced(x: Instance, done: set<Action>) {
    && WaiterTraced(x, done) && WaitTraced(x, done) && RemovalTraced(x, done) && ApcTraced(x, done)
    && NormalTraced(x, done)
  }

  /** What the target thread does. */
  predicate OfApc(a: Action) {
    || a.Deliver? || a.RunDown? || a.Capture? || a.Signal? || a.LeaveKernelRoutine?
    || a.RunNormalRoutine? || a.LeaveNormalRoutine? || a.Clean? || a.Unpin?
  }

  lemma StepTracesWaiter(x: Instance, a: Action, done: set<Action>)
    requires Inv(x) && Enabled(x, a) && Traced(x, done)
    ensures WaiterTraced(Step(x, a), done + {a})
  {
    if OfApc(a) {
      ApcTracesWaiter(x, a, done);
    }
  }

  lemma ApcTracesWaiter(x: Instance, a: Action, done: set<Action>)
    requires Inv(x) && Enabled(x, a) && Traced(x, done) && OfApc(a)
    ensures WaiterTraced(Step(x, a), done + {a})
  {
  }

  lemma StepTracesWait(x: Instance, a: Action, done: set<Action>)
    requires Inv(x) && Enabled(x, a) && Traced(x, done)
    ensures WaitTraced(Step(x, a), done + {a})
  {
    if OfApc(a) {
      ApcTracesWait(x, a, done);
    } else if a.Remove? || a.CleanRemoved? || a.UnpinRemoved? || a.Copy? || a.Release? {
      EndTracesWait(x, a, done);
    }
  }

  lemma EndTracesWait(x: Instance, a: Action, done: set<Action>)
    requires Inv(x) && Enabled(x, a) && Traced(x, done)
    requires a.Remove? || a.CleanRemoved? || a.UnpinRemoved? || a.Copy? || a.Release?
    ensures WaitTraced(Step(x, a), done + {a})
  {
  }

  lemma ApcTracesWait(x: Instance, a: Action, done: set<Action>)
    requires Inv(x) && Enabled(x, a) && Traced(x, done) && OfApc(a)
    ensures WaitTraced(Step(x, a), done + {a})
  {
  }

  lemma StepTracesRemoval(x: Instance, a: Action, done: set<Action>)
    requires Inv(x) && Enabled(x, a) && Traced(x, done)
    ensures RemovalTraced(Step(x, a), done + {a})
  {
    if OfApc(a) {
      ApcTracesRemoval(x, a, done);
    }
  }

  lemma ApcTracesRemoval(x: Instance, a: Action, done: set<Action>)
    requires Inv(x) && Enabled(x, a) && Traced(x, done) && OfApc(a)
    ensures RemovalTraced(Step(x, a), done + {a})
  {
  }

  lemma StepTracesApc(x: Instance, a: Action, done: set<Action>)
    requires Inv(x) && Enabled(x, a) && Traced(x, done)
    ensures ApcTraced(Step(x, a), done + {a})
  {
    if OfApc(a) {
      ApcTracesApc(x, a, done);
    }
  }

  lemma ApcTracesApc(x: Instance, a: Action, done: set<Action>)
    requires Inv(x) && Enabled(x, a) && Traced(x, done) && OfApc(a)
    ensures ApcTraced(Step(x, a), done + {a})
  {
  }

  lemma StepTracesNormal(x: Instance, a: Action, done: set<Action>)
    requires Inv(x) && Enabled(x, a) && Traced(x, done)
    ensures NormalTraced(Step(x, a), done + {a})
  {
    if OfApc(a) {
      ApcTracesNormal(x, a, done);
    }
  }

  lemma ApcTracesNormal(x: Instance, a: Action, done: set<Action>)
    requires Inv(x) && Enabled(x, a) && Traced(x, done) && OfApc(a)
    ensures NormalTraced(Step(x, a), done + {a})
  {
  }

  /** What was done in a run. */
  function Done(acts: seq<Action>): set<Action> {
    set a | a in acts
  }

  lemma StepTraces(x: Instance, a: Action, done: set<Action>)
    requires Inv(x) && Enabled(x, a) && Traced(x, done)
    ensures Traced(Step(x, a), done + {a})
  {
    StepTracesWaiter(x, a, done);
    StepTracesWait(x, a, done);
    StepTracesRemoval(x, a, done);
    StepTracesApc(x, a, done);
    StepTracesNormal(x, a, done);
  }

  ghost predicate RunIsTraced(x: Instance, acts: seq<Action>) {
    Traced(After(x, acts), Done(acts))
  }

  lemma OneMoreTraced(x: Instance, acts: seq<Action>, a: Action)
    requires Inv(x) && Possible(x, acts + [a]) && RunIsTraced(x, acts)
    ensures RunIsTraced(x, acts + [a])
  {
    OneMore(x, acts, a);
    RunKeeps(x, acts);
    StepTraces(After(x, acts), a, Done(acts));
    assert Done(acts + [a]) == Done(acts) + {a};
  }

  lemma {:induction false} RunTraced(userMode: bool, waits: bool, timed: bool, acts: seq<Action>)
    requires Possible(Start(userMode, waits, timed), acts)
    ensures RunIsTraced(Start(userMode, waits, timed), acts)
  {
    if acts != [] {
      var n := |acts| - 1;
      assert acts == acts[..n] + [acts[n]];
      RunTraced(userMode, waits, timed, acts[..n]);
      OneMoreTraced(Start(userMode, waits, timed), acts[..n], acts[n]);
    }
  }

  /** A waiter that was woken by the event copies what was captured, before it gives
      up its reference; nobody else copies anything. */
  lemma WokenCopies(userMode: bool, waits: bool, timed: bool, acts: seq<Action>)
    requires Possible(Start(userMode, waits, timed), acts)
    ensures var x := After(Start(userMode, waits, timed), acts);
      && (Wake in acts ==> x.marks.captured && (x.waiter == Copying || x.marks.copied))
      && (x.marks.copied ==> Wake in acts && (x.waiter == Releasing || x.waiter == Finished))
  {
    RunTraced(userMode, waits, timed, acts);
    RunKeeps(Start(userMode, waits, timed), acts);
    assert Wake in acts <==> Wake in Done(acts);
  }

  /** The ordinary run, for either mode and with or without a timeout: the results are
      captured and copied. */
  lemma OrdinaryRun(userMode: bool, timed: bool) returns (acts: seq<Action>)
    ensures acts == [Create(true), Reference, PinDriver, Insert(true)] + [Deliver, Capture, Signal, Wake]
                    + [Copy, Release] + [LeaveKernelRoutine(false)] + [Clean, Unpin]
    ensures var x := After(Start(userMode, true, timed), acts);
      Possible(Start(userMode, true, timed), acts) && Quiet(x) && x.marks.captured && x.marks.copied
  {
    var x0 := Start(userMode, true, timed);
    acts := QueuedRun(userMode, timed);
    acts := CapturedRun(x0, acts, After(x0, acts));
    acts := CopiedRun(x0, acts, After(x0, acts));
    acts := LeftRun(x0, acts, After(x0, acts));
    acts := CleanedRun(x0, acts, After(x0, acts));
  }

  lemma CopiedRun(x0: Instance, before: seq<Action>, x: Instance) returns (acts: seq<Action>)
    requires Possible(x0, before) && After(x0, before) == x && x.waiter == Copying
    ensures acts == before + [Copy, Release] && Possible(x0, acts)
    ensures var y := After(x0, acts);
      y.waiter == Finished && y.apc == x.apc && y.marks == x.marks.(copied := true)
  {
    acts := before;
    var x1 := Step(x, Copy);
    Extends(x0, acts, x, Copy, x1);
    acts := acts + [Copy];
    Extends(x0, acts, x1, Release, Step(x1, Release));
    acts := acts + [Release];
  }

  /** An APC that is queued and waited for is delivered, captures, and wakes its waiter. */
  lemma CapturedRun(x0: Instance, before: seq<Action>, x: Instance) returns (acts: seq<Action>)
    requires Possible(x0, before) && After(x0, before) == x
    requires x.waiter == Waiting && x.apc == Queued && x.waits
    ensures acts == before + [Deliver, Capture, Signal, Wake] && Possible(x0, acts)
    ensures After(x0, acts).waiter == Copying && After(x0, acts).apc == KernelRoutineDone
    ensures After(x0, acts).marks.captured
  {
    acts := before;
    var x1 := Step(x, Deliver);
    Extends(x0, acts, x, Deliver, x1);
    acts := acts + [Deliver];
    var x2 := Step(x1, Capture);
    Extends(x0, acts, x1, Capture, x2);
    acts := acts + [Capture];
    var x3 := Step(x2, Signal);
    Extends(x0, acts, x2, Signal, x3);
    acts := acts + [Signal];
    Extends(x0, acts, x3, Wake, Step(x3, Wake));
    acts := acts + [Wake];
  }

  lemma CleanedRun(x0: Instance, before: seq<Action>, x: Instance) returns (acts: seq<Action>)
    requires Possible(x0, before) && After(x0, before) == x && x.apc == Cleaning && x.waiter == Finished
    ensures acts == before + [Clean, Unpin] && Possible(x0, acts)
    ensures Quiet(After(x0, acts)) && After(x0, acts).marks == x.marks
  {
    var x1 := Step(x, Clean);
    assert x1.apc == Unpinning && x1.waiter == x.waiter && x1.marks == x.marks;
    Extends(x0, before, x, Clean, x1);
    acts := UnpinnedRun(x0, before + [Clean], x1);
  }

  lemma UnpinnedRun(x0: Instance, before: seq<Action>, x: Instance) returns (acts: seq<Action>)
    requires Possible(x0, before) && After(x0, before) == x && x.apc == Unpinning
    ensures acts == before + [Unpin] && Possible(x0, acts)
    ensures var y := After(x0, acts); y.apc == Over && y.waiter == x.waiter && y.marks == x.marks
  {
    Extends(x0, before, x, Unpin, Step(x, Unpin));
    acts := before + [Unpin];
  }

  lemma LeftRun(x0: Instance, before: seq<Action>, x: Instance) returns (acts: seq<Action>)
    requires Possible(x0, before) && After(x0, before) == x && x.apc == KernelRoutineDone
    ensures acts == before + [LeaveKernelRoutine(false)] && Possible(x0, acts)
    ensures var y := After(x0, acts); y.apc == Cleaning && y.waiter == x.waiter && y.marks == x.marks
  {
    Extends(x0, before, x, LeaveKernelRoutine(false), Step(x, LeaveKernelRoutine(false)));
    acts := before + [LeaveKernelRoutine(false)];
  }

  predicate ExactlyOne(a: bool, b: bool, c: bool) {
    (a && !b && !c) || (!a && b && !c) || (!a && !b && c)
  }

  /** What must have happened when everything is over.  An APC that was inserted was
      delivered, run down, or removed, one of them.  A delivered one has captured and set
      the event, and ran its normal routine iff the kernel routine left one in kernel mode.
      A waiter that waits was woken and has copied the results, or timed out and tried to
      remove the APC, which succeeds iff it is possible and not too late. */
  lemma Outcomes(userMode: bool, waits: bool, timed: bool, acts: seq<Action>)
    requires var x := Start(userMode, waits, timed); Possible(x, acts) && Quiet(After(x, acts))
    ensures var x := After(Start(userMode, waits, timed), acts);
      InsertionOutcome(x, Done(acts)) && WaitOutcome(x, waits, Done(acts)) && ApcOutcome(x, userMode, Done(acts))
  {
    var x := After(Start(userMode, waits, timed), acts);
    RunTraced(userMode, waits, timed, acts);
    RunKeeps(Start(userMode, waits, timed), acts);
    Fixed(Start(userMode, waits, timed), acts);
    InsertionEnds(x, Done(acts));
    WaitEnds(x, Done(acts));
    ApcEnds(x, Done(acts));
  }

  predicate InsertionOutcome(x: Instance, done: set<Action>) {
    && (Create(true) in done <==> Create(false) !in done) && (x.carrier.created <==> Create(true) in done)
    && (Create(true) in done <==> Insert(true) in done || Insert(false) in done)
    && (Insert(true) in done ==> Insert(false) !in done)
  }

  predicate WaitOutcome(x: Instance, waits: bool, done: set<Action>) {
    && (Insert(true) in done ==> ExactlyOne(!waits, Wake in done, TimeOut in done))
    && (Wake in done <==> x.marks.copied)
    && (TimeOut in done <==> AskedToRemove(done))
  }

  predicate ApcOutcome(x: Instance, userMode: bool, done: set<Action>) {
    && (Insert(true) in done ==> ExactlyOne(Deliver in done, RunDown in done, CleanRemoved in done))
    && (Deliver in done <==> x.marks.captured && x.marks.signaled)
    && (RunNormalRoutine in done <==> !userMode && LeaveKernelRoutine(true) in done)
    && (CleanRemoved in done <==> Remove(true) in done && Deliver !in done && RunDown !in done)
  }

  lemma InsertionEnds(x: Instance, done: set<Action>)
    requires Inv(x) && Traced(x, done) && Quiet(x)
    ensures InsertionOutcome(x, done)
  {
  }

  lemma WaitEnds(x: Instance, done: set<Action>)
    requires Inv(x) && Traced(x, done) && Quiet(x)
    ensures WaitOutcome(x, x.waits, done)
  {
  }

  lemma ApcEnds(x: Instance, done: set<Action>)
    requires Inv(x) && Traced(x, done) && Quiet(x)
    ensures ApcOutcome(x, x.userMode, done)
  {
  }

  /** All instances, and the references to the driver object. */
  datatype System = System(instances: seq<Instance>, driver: int)

  function DriverChange(a: Action): int {
    if a.PinDriver? then 1 else if a.UnpinDriver? || a.UnpinRemoved? || a.Unpin? then -1 else 0
  }

  ghost predicate Next(s: System, s': System) {
    || (exists userMode, waits, timed :: s' == s.(instances := s.instances + [Start(userMode, waits, timed)]))
    || (exists i: nat, a :: i < |s.instances| && Moves(s, s', i, a))
  }

  predicate Moves(s: System, s': System, i: nat, a: Action)
    requires i < |s.instances|
  {
    && Enabled(s.instances[i], a)
    && s' == System(s.instances[i := Step(s.instances[i], a)], s.driver + DriverChange(a))
  }

  /** How many instances have the driver pinned. */
  function Pins(xs: seq<Instance>): nat {
    if xs == [] then 0 else Pins(xs[..|xs| - 1]) + (if Pinned(xs[|xs| - 1]) then 1 else 0)
  }

  lemma {:induction false} PinsUpdate(xs: seq<Instance>, i: nat, x: Instance)
    requires i < |xs|
    ensures Pins(xs[i := x]) == Pins(xs) + (if Pinned(x) then 1 else 0) - (if Pinned(xs[i]) then 1 else 0)
  {
    var n := |xs| - 1;
    var ys := xs[i := x];
    if i == n {
      assert ys[..n] == xs[..n];
    } else {
      assert ys[..n] == xs[..n][i := x];
      PinsUpdate(xs[..n], i, x);
    }
  }

  lemma PinChange(x: Instance, a: Action)
    ensures var y := Step(x, a); y.tally.pins - y.tally.unpins == x.tally.pins - x.tally.unpins + DriverChange(a)
  {
  }

  ghost predicate SystemInv(s: System, others: int) {
    && (forall i :: 0 <= i < |s.instances| ==> Inv(s.instances[i]))
    && s.driver == others + Pins(s.instances)
  }

  lemma MoveKeeps(s: System, s': System, others: int, i: nat, a: Action)
    requires SystemInv(s, others) && i < |s.instances| && Moves(s, s', i, a)
    ensures SystemInv(s', others)
  {
    var x := s.instances[i];
    var y := Step(x, a);
    StepKeeps(x, a);
    PinChange(x, a);
    PinsUpdate(s.instances, i, y);
    assert x.tally.pins - x.tally.unpins == if Pinned(x) then 1 else 0;
    assert y.tally.pins - y.tally.unpins == if Pinned(y) then 1 else 0;
  }

  lemma NewKeeps(s: System, others: int, x: Instance)
    requires SystemInv(s, others) && Inv(x) && !Pinned(x)
    ensures SystemInv(s.(instances := s.instances + [x]), others)
  {
    assert (s.instances + [x])[..|s.instances|] == s.instances;
  }

  lemma NextKeeps(s: System, s': System, others: int)
    requires SystemInv(s, others) && Next(s, s')
    ensures SystemInv(s', others)
  {
    if i: nat, a :| i < |s.instances| && Moves(s, s', i, a) {
      MoveKeeps(s, s', others, i, a);
    } else {
      var userMode, waits, timed :| s' == s.(instances := s.instances + [Start(userMode, waits, timed)]);
      NewKeeps(s, others, Start(userMode, waits, timed));
    }
  }

  ghost predicate IsRun(run: seq<System>, others: int) {
    run != [] && run[0] == System([], others) && forall k :: 0 <= k < |run| - 1 ==> Next(run[k], run[k + 1])
  }

  /** However the steps of all waiters and threads interleave, no freed carrier is
      ever used, and the driver is referenced once for every APC that is inserted and
      not yet through with its cleanup, and for every insertion under way. */
  lemma {:induction false} RunsAreSafe(run: seq<System>, others: int, k: nat)
    requires IsRun(run, others) && k < |run|
    ensures SystemInv(run[k], others)
  {
    if k > 0 {
      RunsAreSafe(run, others, k - 1);
      NextKeeps(run[k - 1], run[k], others);
    }
  }
}
