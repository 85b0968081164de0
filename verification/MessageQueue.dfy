/**
 The queue of messages that are sent asynchronously.

 Senders put messages in the queue under rundown protection, worker threads take
 them out, and stopping closes the rundown, abandons the queue, waits for the
 workers and drains what is left.  Every message belongs to its sender, the queue,
 a worker, or the thread that stops, until it is freed; and those that got into the
 queue are sent before.
 */
module MessageQueue {

  /** A call of KphCommsSendMessageAsync or its non-paged form, and whether it has put
      its message in the queue. */
  datatype SenderPc = Entering | Allocating | Dropping | Inserting | Releasing(queued: bool) | Gone(queued: bool)

  datatype WorkerPc = Removing | Sending(message: nat) | Freeing(message: nat) | Exited

  /** KphCommsStop. */
  datatype StopperPc =
    | Running | WaitingForRundown | WaitingForWorkers
    | Draining | SendingLate(message: nat) | FreeingLate(message: nat) | Stopped

  /** `rundown` counts the holders of the rundown protection, `ring` is what is left
      to drain, and `sent` and `freed` list the messages that were sent and freed. */
  datatype Comms = Comms(
    senders: seq<SenderPc>, workers: seq<WorkerPc>, stopper: StopperPc,
    closed: bool, rundown: int, queue: seq<nat>, abandoned: bool, ring: seq<nat>, sent: seq<nat>, freed: seq<nat>)

  datatype Action =
    | NewMessage
    | Sender(m: nat, ok: bool)
    | Worker(w: nat, spurious: bool)
    | Stopper

  predicate Enabled(s: Comms, a: Action) {
    match a
    case NewMessage => true
    case Sender(m, _) => m < |s.senders| && !s.senders[m].Gone?
    case Worker(w, _) =>
      w < |s.workers| && s.workers[w] != Exited && (s.workers[w] == Removing ==> s.queue != [] || s.abandoned)
    case Stopper =>
      match s.stopper
      case Running => true
      case WaitingForRundown => s.rundown == 0
      case WaitingForWorkers => forall w :: 0 <= w < |s.workers| ==> s.workers[w] == Exited
      case Draining => true
      case SendingLate(_) => true
      case FreeingLate(_) => true
      case Stopped => false
  }

  function WithSender(s: Comms, m: nat, pc: SenderPc): Comms
    requires m < |s.senders|
  {
    s.(senders := s.senders[m := pc])
  }

  function SenderStep(s: Comms, m: nat, ok: bool): Comms
    requires m < |s.senders|
  {
    match s.senders[m]
    case Entering =>
      if s.closed then WithSender(s, m, Gone(false)).(freed := [m] + s.freed)
      else WithSender(s, m, Allocating).(rundown := s.rundown + 1)
    case Allocating => WithSender(s, m, if ok then Inserting else Dropping)
    case Dropping => WithSender(s, m, Releasing(false)).(freed := [m] + s.freed)
    case Inserting => WithSender(s, m, Releasing(true)).(queue := [m] + s.queue)
    case Releasing(queued) => WithSender(s, m, Gone(queued)).(rundown := s.rundown - 1)
    case Gone(_) => s
  }

  function WithWorker(s: Comms, w: nat, pc: WorkerPc): Comms
    requires w < |s.workers|
  {
    s.(workers := s.workers[w := pc])
  }

  function WorkerStep(s: Comms, w: nat, spurious: bool): Comms
    requires w < |s.workers|
  {
    match s.workers[w]
    case Removing =>
      if spurious then s
      else if s.abandoned then WithWorker(s, w, Exited)
      else if s.queue == [] then s
      else WithWorker(s, w, Sending(s.queue[0])).(queue := s.queue[1..])
    case Sending(m) => WithWorker(s, w, Freeing(m)).(sent := [m] + s.sent)
    case Freeing(m) => WithWorker(s, w, Removing).(freed := [m] + s.freed)
    case Exited => s
  }

  function StopperStep(s: Comms): Comms {
    match s.stopper
    case Running => s.(stopper := WaitingForRundown, closed := true)
    case WaitingForRundown => s.(stopper := WaitingForWorkers, abandoned := true, ring := s.queue, queue := [])
    case WaitingForWorkers => s.(stopper := Draining)
    case Draining =>
      if s.ring == [] then s.(stopper := Stopped) else s.(stopper := SendingLate(s.ring[0]), ring := s.ring[1..])
    case SendingLate(m) => s.(stopper := FreeingLate(m), sent := [m] + s.sent)
    case FreeingLate(m) => s.(stopper := Draining, freed := [m] + s.freed)
    case Stopped => s
  }

  function Step(s: Comms, a: Action): Comms {
    match a
    case NewMessage => s.(senders := s.senders + [Entering])
    case Sender(m, ok) => if m < |s.senders| then SenderStep(s, m, ok) else s
    case Worker(w, spurious) => if w < |s.workers| then WorkerStep(s, w, spurious) else s
    case Stopper => StopperStep(s)
  }

  /** The sender is still responsible for its message. */
  predicate Owns(pc: SenderPc) {
    pc == Entering || pc == Allocating || pc == Dropping || pc == Inserting
  }

  predicate Protected(pc: SenderPc) {
    pc == Allocating || pc == Dropping || pc == Inserting || pc.Releasing?
  }

  function Holders(senders: seq<SenderPc>): nat {
    if senders == [] then 0
    else Holders(senders[..|senders| - 1]) + (if Protected(senders[|senders| - 1]) then 1 else 0)
  }

  /** How often a message is in a list. */
  function Count(list: seq<nat>, m: nat): nat {
    if list == [] then 0 else (if list[0] == m then 1 else 0) + Count(list[1..], m)
  }

  function Carries(pc: WorkerPc, m: nat): nat {
    match pc
    case Sending(x) => if x == m then 1 else 0
    case Freeing(x) => if x == m then 1 else 0
    case _ => 0
  }

  /** How many workers are busy with a message. */
  function InHand(workers: seq<WorkerPc>, m: nat): nat {
    if workers == [] then 0 else InHand(workers[..|workers| - 1], m) + Carries(workers[|workers| - 1], m)
  }

  function Drained(pc: StopperPc, m: nat): nat {
    if pc == SendingLate(m) || pc == FreeingLate(m) then 1 else 0
  }

  /** In how many places a message is once its sender is through with it. */
  function Places(s: Comms, m: nat): nat {
    Count(s.queue, m) + InHand(s.workers, m) + Count(s.ring, m) + Drained(s.stopper, m) + Count(s.freed, m)
  }

  function Due(senders: seq<SenderPc>, m: nat): nat {
    if m < |senders| && !Owns(senders[m]) then 1 else 0
  }

  /** Each message is in one place: with its sender, or passed on. */
  ghost predicate OnePlace(s: Comms) {
    forall m: nat :: Places(s, m) == Due(s.senders, m)
  }

  /** How many workers are sending a message. */
  function InSending(workers: seq<WorkerPc>, m: nat): nat {
    if workers == [] then 0
    else InSending(workers[..|workers| - 1], m) + (if workers[|workers| - 1] == Sending(m) then 1 else 0)
  }

  /** In how many places a message still has to be sent. */
  function Unsent(s: Comms, m: nat): nat {
    Count(s.queue, m) + InSending(s.workers, m) + Count(s.ring, m) + (if s.stopper == SendingLate(m) then 1 else 0)
  }

  function Queued(senders: seq<SenderPc>, m: nat): nat {
    if m < |senders| && (senders[m] == Releasing(true) || senders[m] == Gone(true)) then 1 else 0
  }

  /** Each message that was put in the queue was sent once, or is still to be sent. */
  ghost predicate OneSending(s: Comms) {
    forall m: nat :: Count(s.sent, m) + Unsent(s, m) == Queued(s.senders, m)
  }

  ghost predicate Orderly(s: Comms) {
    && s.rundown == Holders(s.senders)
    && (s.closed <==> s.stopper != Running)
    && (s.abandoned <==> s.stopper != Running && s.stopper != WaitingForRundown)
    && (s.abandoned ==> s.rundown == 0 && s.queue == [])
    && (!s.abandoned ==> s.ring == [] && forall w :: 0 <= w < |s.workers| ==> s.workers[w] != Exited)
    && (s.stopper == Draining || s.stopper.SendingLate? || s.stopper.FreeingLate? || s.stopper == Stopped ==>
          forall w :: 0 <= w < |s.workers| ==> s.workers[w] == Exited)
    && (s.stopper == Stopped ==> s.ring == [])
  }

  ghost predicate Inv(s: Comms) {
    OnePlace(s) && OneSending(s) && Orderly(s)
  }

  lemma {:induction false} HoldersUpdate(senders: seq<SenderPc>, m: nat, pc: SenderPc)
    requires m < |senders|
    ensures Holders(senders[m := pc])
         == Holders(senders) + (if Protected(pc) then 1 else 0) - (if Protected(senders[m]) then 1 else 0)
  {
    var n := |senders| - 1;
    if m == n {
      assert senders[m := pc][..n] == senders[..n];
    } else {
      HoldersUpdate(senders[..n], m, pc);
      assert senders[m := pc][..n] == senders[..n][m := pc];
    }
  }

  lemma {:induction false} HoldersNone(senders: seq<SenderPc>, m: nat)
    requires Holders(senders) == 0 && m < |senders|
    ensures !Protected(senders[m])
  {
    if m < |senders| - 1 {
      HoldersNone(senders[..|senders| - 1], m);
    }
  }

  lemma {:induction false} InHandUpdate(workers: seq<WorkerPc>, w: nat, pc: WorkerPc, m: nat)
    requires w < |workers|
    ensures InHand(workers[w := pc], m) == InHand(workers, m) - Carries(workers[w], m) + Carries(pc, m)
  {
    var n := |workers| - 1;
    if w == n {
      assert workers[w := pc][..n] == workers[..n];
    } else {
      InHandUpdate(workers[..n], w, pc, m);
      assert workers[w := pc][..n] == workers[..n][w := pc];
    }
  }

  lemma {:induction false} InSendingUpdate(workers: seq<WorkerPc>, w: nat, pc: WorkerPc, m: nat)
    requires w < |workers|
    ensures InSending(workers[w := pc], m)
         == InSending(workers, m) - (if workers[w] == Sending(m) then 1 else 0) + (if pc == Sending(m) then 1 else 0)
  {
    var n := |workers| - 1;
    if w == n {
      assert workers[w := pc][..n] == workers[..n];
    } else {
      InSendingUpdate(workers[..n], w, pc, m);
      assert workers[w := pc][..n] == workers[..n][w := pc];
    }
  }

  lemma CountFirst(list: seq<nat>, first: nat, m: nat)
    ensures Count([first] + list, m) == Count(list, m) + (if first == m then 1 else 0)
  {
  }

  lemma DueUpdate(senders: seq<SenderPc>, m: nat, pc: SenderPc, x: nat)
    requires m < |senders|
    ensures Due(senders[m := pc], x) == if x == m then (if Owns(pc) then 0 else 1) else Due(senders, x)
  {
  }

  /** A sender passes its message on once. */
  lemma SenderPlaces(s: Comms, m: nat, ok: bool, x: nat)
    requires m < |s.senders|
    ensures Places(SenderStep(s, m, ok), x) == Places(s, x) + Handed(s, m, ok, x)
  {
    match s.senders[m]
    case Entering => CountFirst(s.freed, m, x);
    case Allocating =>
    case Dropping => CountFirst(s.freed, m, x);
    case Inserting => CountFirst(s.queue, m, x);
    case Releasing(_) =>
    case Gone(_) =>
  }

  function Handed(s: Comms, m: nat, ok: bool, x: nat): nat
    requires m < |s.senders|
  {
    if x == m && Owns(s.senders[m]) && !Owns(SenderStep(s, m, ok).senders[m]) then 1 else 0
  }

  lemma SenderDue(s: Comms, m: nat, ok: bool, x: nat)
    requires m < |s.senders|
    ensures Due(SenderStep(s, m, ok).senders, x) == Due(s.senders, x) + Handed(s, m, ok, x)
  {
    DueUpdate(s.senders, m, SenderStep(s, m, ok).senders[m], x);
  }

  /** And marks it as queued if it puts it in the queue. */
  lemma SenderSending(s: Comms, m: nat, ok: bool, x: nat)
    requires m < |s.senders|
    ensures var s' := SenderStep(s, m, ok);
      Count(s'.sent, x) + Unsent(s', x) + Queued(s.senders, x)
      == Count(s.sent, x) + Unsent(s, x) + Queued(s'.senders, x)
  {
    if s.senders[m] == Inserting {
      CountFirst(s.queue, m, x);
    }
  }

  lemma SenderOrderly(s: Comms, m: nat, ok: bool)
    requires Orderly(s) && m < |s.senders|
    ensures Orderly(SenderStep(s, m, ok))
  {
    SenderRundown(s, m, ok);
    if s.abandoned {
      HoldersNone(s.senders, m);
    }
  }

  lemma SenderRundown(s: Comms, m: nat, ok: bool)
    requires s.rundown == Holders(s.senders) && m < |s.senders|
    ensures var s' := SenderStep(s, m, ok); s'.rundown == Holders(s'.senders)
  {
    HoldersUpdate(s.senders, m, SenderStep(s, m, ok).senders[m]);
  }

  lemma SenderKeeps(s: Comms, m: nat, ok: bool)
    requires Inv(s) && m < |s.senders|
    ensures Inv(SenderStep(s, m, ok))
  {
    forall x: nat ensures Places(SenderStep(s, m, ok), x) == Due(SenderStep(s, m, ok).senders, x) {
      SenderPlaces(s, m, ok, x);
      SenderDue(s, m, ok, x);
    }
    forall x: nat ensures var s' := SenderStep(s, m, ok); Count(s'.sent, x) + Unsent(s', x) == Queued(s'.senders, x) {
      SenderSending(s, m, ok, x);
    }
    SenderOrderly(s, m, ok);
  }

  lemma WorkerPlaces(s: Comms, w: nat, spurious: bool, x: nat)
    requires w < |s.workers|
    ensures Places(WorkerStep(s, w, spurious), x) == Places(s, x)
  {
    InHandUpdate(s.workers, w, WorkerStep(s, w, spurious).workers[w], x);
    if s.workers[w].Freeing? {
      CountFirst(s.freed, s.workers[w].message, x);
    }
  }

  lemma WorkerSending(s: Comms, w: nat, spurious: bool, x: nat)
    requires w < |s.workers|
    ensures var s' := WorkerStep(s, w, spurious); Count(s'.sent, x) + Unsent(s', x) == Count(s.sent, x) + Unsent(s, x)
  {
    InSendingUpdate(s.workers, w, WorkerStep(s, w, spurious).workers[w], x);
    if s.workers[w].Sending? {
      CountFirst(s.sent, s.workers[w].message, x);
    }
  }

  lemma WorkerOrderly(s: Comms, w: nat, spurious: bool)
    requires Orderly(s) && w < |s.workers|
    ensures Orderly(WorkerStep(s, w, spurious))
  {
  }

  lemma WorkerKeeps(s: Comms, w: nat, spurious: bool)
    requires Inv(s) && w < |s.workers|
    ensures Inv(WorkerStep(s, w, spurious))
  {
    forall x: nat ensures Places(WorkerStep(s, w, spurious), x) == Due(s.senders, x) {
      WorkerPlaces(s, w, spurious, x);
    }
    var s' := WorkerStep(s, w, spurious);
    forall x: nat ensures Count(s'.sent, x) + Unsent(s', x) == Queued(s.senders, x) {
      WorkerSending(s, w, spurious, x);
    }
    WorkerOrderly(s, w, spurious);
  }

  lemma StopperKeeps(s: Comms)
    requires Inv(s) && Enabled(s, Stopper)
    ensures Inv(StopperStep(s))
  {
  }

  lemma NewMessageCounts(s: Comms, x: nat)
    requires Inv(s)
    ensures var s' := Step(s, NewMessage);
      Places(s', x) == Due(s'.senders, x) && Count(s'.sent, x) + Unsent(s', x) == Queued(s'.senders, x)
  {
    var s' := Step(s, NewMessage);
    assert Places(s', x) == Places(s, x) && Due(s'.senders, x) == Due(s.senders, x);
    assert Unsent(s', x) == Unsent(s, x) && Queued(s'.senders, x) == Queued(s.senders, x);
  }

  lemma NewMessageKeeps(s: Comms)
    requires Inv(s)
    ensures Inv(Step(s, NewMessage))
  {
    var s' := Step(s, NewMessage);
    assert s'.senders[..|s.senders|] == s.senders;
    forall x: nat
      ensures Places(s', x) == Due(s'.senders, x) && Count(s'.sent, x) + Unsent(s', x) == Queued(s'.senders, x)
    {
      NewMessageCounts(s, x);
    }
  }

  lemma StepKeeps(s: Comms, a: Action)
    requires Inv(s) && Enabled(s, a)
    ensures Inv(Step(s, a))
  {
    match a
    case NewMessage => NewMessageKeeps(s);
    case Sender(m, ok) => SenderKeeps(s, m, ok);
    case Worker(w, spurious) => WorkerKeeps(s, w, spurious);
    case Stopper => StopperKeeps(s);
  }

  /** The communications as KphCommsStart leaves them, with a number of workers. */
  predicate Started(s: Comms) {
    && s.senders == [] && s.stopper == Running && !s.closed && s.rundown == 0 && !s.abandoned
    && s.queue == s.ring == s.sent == s.freed == []
    && forall w :: 0 <= w < |s.workers| ==> s.workers[w] == Removing
  }

  lemma {:induction false} NothingInHand(workers: seq<WorkerPc>, m: nat)
    requires forall w :: 0 <= w < |workers| ==> workers[w] == Removing || workers[w] == Exited
    ensures InHand(workers, m) == 0 && InSending(workers, m) == 0
  {
    if workers != [] {
      NothingInHand(workers[..|workers| - 1], m);
    }
  }

  lemma StartKeeps(s: Comms)
    requires Started(s)
    ensures Inv(s)
  {
    forall m: nat ensures Places(s, m) == Due(s.senders, m) && Unsent(s, m) == 0 {
      NothingInHand(s.workers, m);
    }
  }

  ghost predicate IsRun(run: seq<Comms>, acts: seq<Action>) {
    && |run| == |acts| + 1 && Started(run[0])
    && forall k :: 0 <= k < |acts| ==> Enabled(run[k], acts[k]) && run[k + 1] == Step(run[k], acts[k])
  }

  /** In every run, with any number of senders and workers, each message is in
      exactly one place. */
  lemma {:induction false} RunsKeep(run: seq<Comms>, acts: seq<Action>, k: nat)
    requires IsRun(run, acts) && k < |run|
    ensures Inv(run[k])
  {
    if k == 0 {
      StartKeeps(run[0]);
    } else {
      RunsKeep(run, acts, k - 1);
      StepKeeps(run[k - 1], acts[k - 1]);
    }
  }

  /** So none is freed twice, and once everything has stopped and the senders are
      through, each has been freed once: refused, dropped, sent by a worker, or
      drained. */
  lemma FreedOnce(s: Comms, m: nat)
    requires Inv(s) && m < |s.senders|
    ensures Count(s.freed, m) <= 1
    ensures s.stopper == Stopped && !Owns(s.senders[m]) ==> Count(s.freed, m) == 1
  {
    assert Places(s, m) == Due(s.senders, m);
    if s.stopper == Stopped {
      NothingInHand(s.workers, m);
    }
  }

  lemma {:induction false} SendingInHand(workers: seq<WorkerPc>, m: nat)
    ensures InSending(workers, m) <= InHand(workers, m)
  {
    if workers != [] {
      SendingInHand(workers[..|workers| - 1], m);
    }
  }

  /** A message that was put in the queue is sent exactly once before it is freed, by a
      worker or by the thread that stops, and no other message is sent. */
  lemma SentOnce(s: Comms, m: nat)
    requires Inv(s) && m < |s.senders|
    ensures Count(s.sent, m) <= Queued(s.senders, m)
    ensures Count(s.freed, m) > 0 ==> Count(s.sent, m) == Queued(s.senders, m)
    ensures s.stopper == Stopped ==> Count(s.sent, m) == Queued(s.senders, m)
  {
    assert Places(s, m) == Due(s.senders, m);
    assert Count(s.sent, m) + Unsent(s, m) == Queued(s.senders, m);
    SendingInHand(s.workers, m);
    if s.stopper == Stopped {
      NothingInHand(s.workers, m);
    }
  }

  /** Message m found the rundown closed. */
  predicate IsRefusal(s: Comms, a: Action, m: nat) {
    a.Sender? && a.m == m && m < |s.senders| && s.senders[m] == Entering && s.closed
  }

  /** The queue item of message m could not be allocated. */
  predicate IsFailure(s: Comms, a: Action, m: nat) {
    a == Sender(m, false) && m < |s.senders| && s.senders[m] == Allocating
  }

  /** Message m was refused or dropped in the first k steps. */
  ghost predicate Lost(run: seq<Comms>, acts: seq<Action>, k: nat, m: nat)
    requires |run| == |acts| + 1 && k <= |acts|
  {
    exists j :: 0 <= j < k && (IsRefusal(run[j], acts[j], m) || IsFailure(run[j], acts[j], m))
  }

  predicate FateOk(pc: SenderPc, lost: bool) {
    match pc
    case Entering => !lost
    case Allocating => !lost
    case Inserting => !lost
    case Dropping => lost
    case Releasing(queued) => queued <==> !lost
    case Gone(queued) => queued <==> !lost
  }

  lemma StepFate(s: Comms, a: Action, m: nat, lost: bool)
    requires Enabled(s, a) && m < |s.senders| && FateOk(s.senders[m], lost)
    ensures var s' := Step(s, a);
      m < |s'.senders| && FateOk(s'.senders[m], lost || IsRefusal(s, a, m) || IsFailure(s, a, m))
  {
  }

  lemma NobodyYet(run: seq<Comms>, acts: seq<Action>, k: nat, m: nat)
    requires IsRun(run, acts) && k < |run| && m >= |run[k].senders|
    ensures !Lost(run, acts, k, m)
  {
    forall j | 0 <= j < k ensures m >= |run[j].senders| {
      SendersGrow(run, acts, j, k);
    }
  }

  lemma {:induction false} SendersGrow(run: seq<Comms>, acts: seq<Action>, j: nat, k: nat)
    requires IsRun(run, acts) && j <= k < |run|
    ensures |run[j].senders| <= |run[k].senders|
  {
    if j < k {
      SendersGrow(run, acts, j, k - 1);
      assert run[k] == Step(run[k - 1], acts[k - 1]);
    }
  }

  lemma {:induction false} RunFate(run: seq<Comms>, acts: seq<Action>, k: nat, m: nat)
    requires IsRun(run, acts) && k < |run| && m < |run[k].senders|
    ensures FateOk(run[k].senders[m], Lost(run, acts, k, m))
  {
    if k > 0 {
      var s, a := run[k - 1], acts[k - 1];
      assert run[k] == Step(s, a);
      assert Lost(run, acts, k, m) <==>
             Lost(run, acts, k - 1, m) || IsRefusal(s, a, m) || IsFailure(s, a, m);
      if m < |s.senders| {
        RunFate(run, acts, k - 1, m);
        StepFate(s, a, m, Lost(run, acts, k - 1, m));
      } else {
        NobodyYet(run, acts, k - 1, m);
      }
    }
  }

  /** What becomes of a message: when its sender is through and it has been freed, it
      was sent exactly once if its sender found the rundown open and got its queue item,
      and never otherwise. */
  lemma MessageFate(run: seq<Comms>, acts: seq<Action>, k: nat, m: nat)
    requires IsRun(run, acts) && k < |run| && m < |run[k].senders| && run[k].senders[m].Gone?
    requires Count(run[k].freed, m) > 0 || run[k].stopper == Stopped
    ensures Count(run[k].freed, m) == 1
    ensures Count(run[k].sent, m) == if Lost(run, acts, k, m) then 0 else 1
  {
    RunsKeep(run, acts, k);
    FreedOnce(run[k], m);
    SentOnce(run[k], m);
    RunFate(run, acts, k, m);
  }

  /** After the rundown nobody puts a message in the queue any more, and the ring
      that is drained is all there is. */
  lemma NothingQueuedLater(s: Comms, a: Action)
    requires Inv(s) && Enabled(s, a) && s.abandoned
    ensures Step(s, a).queue == [] && Step(s, a).abandoned
    ensures forall m: nat :: m < |s.senders| ==> s.senders[m] == Entering || s.senders[m].Gone?
  {
    StepKeeps(s, a);
    forall m: nat | m < |s.senders| ensures s.senders[m] == Entering || s.senders[m].Gone? {
      HoldersNone(s.senders, m);
    }
  }

  lemma {:induction false} SomeHolder(senders: seq<SenderPc>) returns (m: nat)
    requires Holders(senders) > 0
    ensures m < |senders| && Protected(senders[m])
  {
    m := |senders| - 1;
    if !Protected(senders[m]) {
      m := SomeHolder(senders[..m]);
    }
  }

  function SenderWork(pc: SenderPc): nat {
    match pc
    case Entering => 8
    case Allocating => 7
    case Dropping => 2
    case Inserting => 6
    case Releasing(_) => 1
    case Gone(_) => 0
  }

  function WorkerWork(pc: WorkerPc): nat {
    match pc
    case Removing => 1
    case Sending(_) => 3
    case Freeing(_) => 2
    case Exited => 0
  }

  function StopperWork(pc: StopperPc): nat {
    match pc
    case Running => 4
    case WaitingForRundown => 3
    case WaitingForWorkers => 2
    case Draining => 1
    case SendingLate(_) => 3
    case FreeingLate(_) => 2
    case Stopped => 0
  }

  function SendersWork(senders: seq<SenderPc>): nat {
    if senders == [] then 0 else SendersWork(senders[..|senders| - 1]) + SenderWork(senders[|senders| - 1])
  }

  function WorkersWork(workers: seq<WorkerPc>): nat {
    if workers == [] then 0 else WorkersWork(workers[..|workers| - 1]) + WorkerWork(workers[|workers| - 1])
  }

  /** What is left to do for the messages there are, and until everything has stopped. */
  function Work(s: Comms): nat {
    SendersWork(s.senders) + WorkersWork(s.workers) + StopperWork(s.stopper) + 4 * |s.queue| + 4 * |s.ring|
  }

  lemma {:induction false} SendersWorkUpdate(senders: seq<SenderPc>, m: nat, pc: SenderPc)
    requires m < |senders|
    ensures SendersWork(senders[m := pc]) == SendersWork(senders) - SenderWork(senders[m]) + SenderWork(pc)
  {
    var n := |senders| - 1;
    if m == n {
      assert senders[m := pc][..n] == senders[..n];
    } else {
      SendersWorkUpdate(senders[..n], m, pc);
      assert senders[m := pc][..n] == senders[..n][m := pc];
    }
  }

  lemma {:induction false} WorkersWorkUpdate(workers: seq<WorkerPc>, w: nat, pc: WorkerPc)
    requires w < |workers|
    ensures WorkersWork(workers[w := pc]) == WorkersWork(workers) - WorkerWork(workers[w]) + WorkerWork(pc)
  {
    var n := |workers| - 1;
    if w == n {
      assert workers[w := pc][..n] == workers[..n];
    } else {
      WorkersWorkUpdate(workers[..n], w, pc);
      assert workers[w := pc][..n] == workers[..n][w := pc];
    }
  }

  /** A step that is neither a new message nor a worker waking up for nothing. */
  predicate Works(a: Action) {
    !a.NewMessage? && !(a.Worker? && a.spurious)
  }

  lemma SenderGoesOn(s: Comms, m: nat, ok: bool)
    requires Enabled(s, Sender(m, ok))
    ensures var s' := SenderStep(s, m, ok);
      && m < |s'.senders| && s'.senders == s.senders[m := s'.senders[m]]
      && s'.workers == s.workers && s'.stopper == s.stopper && s'.ring == s.ring
      && SenderWork(s'.senders[m]) + 4 * |s'.queue| < SenderWork(s.senders[m]) + 4 * |s.queue|
  {
  }

  lemma SenderWorks(s: Comms, m: nat, ok: bool)
    requires Enabled(s, Sender(m, ok))
    ensures Work(SenderStep(s, m, ok)) < Work(s)
  {
    SenderGoesOn(s, m, ok);
    SendersWorkUpdate(s.senders, m, SenderStep(s, m, ok).senders[m]);
  }

  lemma WorkerWorks(s: Comms, w: nat)
    requires Enabled(s, Worker(w, false))
    ensures Work(WorkerStep(s, w, false)) < Work(s)
  {
    WorkersWorkUpdate(s.workers, w, WorkerStep(s, w, false).workers[w]);
  }

  /** Each such step leaves less to do. */
  lemma StepWorks(s: Comms, a: Action)
    requires Inv(s) && Enabled(s, a) && Works(a)
    ensures Work(Step(s, a)) < Work(s)
  {
    match a
    case Sender(m, ok) => SenderWorks(s, m, ok);
    case Worker(w, _) => WorkerWorks(s, w);
    case Stopper =>
  }

  /** Everything is over: all senders are through, and everything has stopped. */
  predicate AllOver(s: Comms) {
    s.stopper == Stopped && forall m :: 0 <= m < |s.senders| ==> s.senders[m].Gone?
  }

  /** Until then somebody can do something: a sender, the thread that stops, or a worker
      that it waits for. */
  lemma SomebodyWorks(s: Comms) returns (a: Action)
    requires Inv(s) && !AllOver(s)
    ensures Enabled(s, a) && Works(a)
  {
    if m: nat :| m < |s.senders| && !s.senders[m].Gone? {
      a := Sender(m, true);
    } else if s.stopper == WaitingForRundown && s.rundown != 0 {
      var m := SomeHolder(s.senders);
      a := Sender(m, true);
    } else if s.stopper == WaitingForWorkers && !Enabled(s, Stopper) {
      var w: nat :| w < |s.workers| && s.workers[w] != Exited;
      a := Worker(w, false);
    } else {
      a := Stopper;
    }
  }

  /** Stopping never gets stuck, and nothing goes round in circles: in every state, no
      matter which steps are taken, as many as there is work left lead to the end, where
      every message has been freed. */
  lemma {:induction false} StoppingEnds(s: Comms) returns (s': Comms, acts: seq<Action>)
    requires Inv(s)
    ensures Inv(s') && AllOver(s') && Leads(s, acts, s') && |acts| <= Work(s)
    ensures |s'.senders| == |s.senders| && forall m: nat :: m < |s.senders| ==> Count(s'.freed, m) == 1
    decreases Work(s)
  {
    if AllOver(s) {
      s', acts := s, [];
      forall m: nat | m < |s.senders| ensures Count(s.freed, m) == 1 {
        FreedOnce(s, m);
      }
    } else {
      var a := SomebodyWorks(s);
      StepKeeps(s, a);
      StepWorks(s, a);
      s', acts := StoppingEnds(Step(s, a));
      acts := [a] + acts;
    }
  }

  predicate Leads(s: Comms, acts: seq<Action>, s': Comms)
    decreases acts
  {
    if acts == [] then s' == s
    else Enabled(s, acts[0]) && Works(acts[0]) && Leads(Step(s, acts[0]), acts[1..], s')
  }

  /** The drain loop of KphCommsStop on the ring that KeRundownQueue returns, which
      has no list head: every item is sent and freed once, and its link is read before
      it is freed.  `flink` are the links of the items that are not freed yet. */
  method DrainRing(flink: map<nat, nat>, entry: nat, ghost ring: seq<nat>) returns (sent: seq<nat>, freed: seq<nat>)
    requires ring != [] && ring[0] == entry && IsRing(flink, ring)
    ensures sent == ring && freed == ring
  {
    sent, freed := [], [];
    var links, current, first, more := flink, entry, entry, true;
    ghost var k := 0;
    while more
      invariant k <= |ring| && more == (k < |ring|) && sent == ring[..k] && freed == ring[..k]
      invariant current == ring[if k == |ring| then 0 else k]
      invariant forall i :: k <= i < |ring| ==> ring[i] in links && links[ring[i]] == flink[ring[i]]
      decreases |ring| - k
    {
      var item := current;
      current := links[current];
      sent := sent + [item];
      freed := freed + [item];
      links := links - {item};
      more := current != first;
      k := k + 1;
      assert 0 < k < |ring| ==> ring[k] != ring[0];
    }
    assert ring[..k] == ring;
  }

  /** The items of a circular list without a head. */
  ghost predicate IsRing(flink: map<nat, nat>, ring: seq<nat>) {
    && (forall i, j :: 0 <= i < j < |ring| ==> ring[i] != ring[j])
    && forall i :: 0 <= i < |ring| ==> ring[i] in flink && flink[ring[i]] == ring[if i + 1 == |ring| then 0 else i + 1]
  }
}
