/**
 The cache of file names by file object.

 A request looks for an entry of its file object under the shared lock; if there is
 none it creates one, and inserts it under the exclusive lock unless another request
 was faster.  After the file system has closed a file object its entry is reaped, and
 only after that the memory of the file object may be used for another one.  Each
 action is one step of one request, or of the system.
 */
module NameCache {
  import opened Wrappers

  /** A cached name; `name` stands for the file object that it was made for. */
  datatype Entry = Entry(file: nat, name: nat, count: nat)

  datatype Pc =
    | Looking
    | Making
    | Inserting(own: nat)
    | DroppingOwn(found: nat, own: nat)
    | Holding(entry: nat)
    | Dropping(entry: nat)
    | Done

  /** A request about the file object at an address, which then has a name. */
  datatype Request = Request(file: nat, name: nat, pc: Pc)

  /** A file object is closed by the file system, then its entry is reaped, and only
      then is its memory free for another one. */
  datatype Phase = Opened | Closed | Reaped

  datatype File = File(name: nat, phase: Phase)

  /** `files` are the file objects whose memory is in use, by address. */
  datatype Cache = Cache(
    files: map<nat, File>, requests: seq<Request>, list: seq<nat>, entries: map<nat, Entry>,
    unused: nat, stopped: bool, fault: bool)

  datatype Action =
    | Open(file: nat, name: nat)
    | Ask(file: nat)
    | Go(i: nat, ok: bool)
    | Close(file: nat)
    | Reap(file: nat)
    | Free(file: nat)
    | Stop
    | Cleanup

  /** The entry of a file object in the list. */
  function Find(c: Cache, file: nat, list: seq<nat>): Option<nat> {
    if list == [] then None
    else if list[0] in c.entries && c.entries[list[0]].file == file then Some(list[0])
    else Find(c, file, list[1..])
  }

  predicate Busy(pc: Pc) {
    pc.Looking? || pc.Making? || pc.Inserting? || pc.DroppingOwn?
  }

  predicate Enabled(c: Cache, a: Action) {
    match a
    case Open(file, _) => file !in c.files
    case Ask(file) => !c.stopped && IsOpen(c, file)
    case Go(i, _) => i < |c.requests| && c.requests[i].pc != Done
    case Close(file) => IsOpen(c, file) && forall r :: r in c.requests && r.file == file ==> !Busy(r.pc)
    case Reap(file) => !c.stopped && file in c.files && c.files[file].phase == Closed
    case Free(file) =>
      file in c.files && (c.files[file].phase == Reaped || (c.stopped && c.files[file].phase == Closed))
    case Stop =>
      && (forall r :: r in c.requests ==> !Busy(r.pc))
      && forall file :: file in c.files ==> c.files[file].phase != Closed
    case Cleanup => c.stopped && c.list != []
  }

  predicate IsOpen(c: Cache, file: nat) {
    file in c.files && c.files[file].phase == Opened
  }

  function WithPhase(c: Cache, file: nat, phase: Phase): Cache
    requires file in c.files
  {
    c.(files := c.files[file := c.files[file].(phase := phase)])
  }

  /** KphReferenceObject and KphDereferenceObject. */
  function Referenced(c: Cache, e: nat): Cache {
    if e in c.entries then c.(entries := c.entries[e := c.entries[e].(count := c.entries[e].count + 1)])
    else c.(fault := true)
  }

  function Dropped(c: Cache, e: nat): Cache {
    if e !in c.entries || c.entries[e].count == 0 then c.(fault := true)
    else if c.entries[e].count == 1 then c.(entries := c.entries - {e})
    else c.(entries := c.entries[e := c.entries[e].(count := c.entries[e].count - 1)])
  }

  function At(c: Cache, i: nat, pc: Pc): Cache
    requires i < |c.requests|
  {
    c.(requests := c.requests[i := c.requests[i].(pc := pc)])
  }

  /** KphpFltGetFileNameUseNameCache, and KphpFltReleaseFileName at the end. */
  function GoOn(c: Cache, i: nat, ok: bool): Cache
    requires i < |c.requests|
  {
    var r := c.requests[i];
    match r.pc
    case Looking =>
      (match Find(c, r.file, c.list)
       case Some(e) => At(Referenced(c, e), i, Holding(e))
       case None => At(c, i, Making))
    case Making =>
      if ok then
        At(c, i, Inserting(c.unused)).(entries := c.entries[c.unused := Entry(r.file, r.name, 1)],
                                       unused := c.unused + 1)
      else At(c, i, Done)
    case Inserting(own) =>
      (match Find(c, r.file, c.list)
       case Some(e) => At(Referenced(c, e), i, DroppingOwn(e, own))
       case None => At(Referenced(c, own), i, Holding(own)).(list := [own] + c.list))
    case DroppingOwn(found, own) => At(Dropped(c, own), i, Holding(found))
    case Holding(e) => At(Dropped(c, e), i, Done)
    case Dropping(e) => At(Dropped(c, e), i, Done)
    case Done => c
  }

  /** The list without an entry. */
  function Without(list: seq<nat>, e: nat): seq<nat> {
    if list == [] then [] else if list[0] == e then list[1..] else [list[0]] + Without(list[1..], e)
  }

  function Step(c: Cache, a: Action): Cache {
    match a
    case Open(file, name) => c.(files := c.files[file := File(name, Opened)])
    case Ask(file) =>
      if file in c.files then c.(requests := c.requests + [Request(file, c.files[file].name, Looking)]) else c
    case Go(i, ok) => if i < |c.requests| then GoOn(c, i, ok) else c
    // the file system closes the file object
    case Close(file) => if file in c.files then WithPhase(c, file, Closed) else c
    // KphpFltReapFileNameCache
    case Reap(file) =>
      if file !in c.files then c
      else
        (match Find(c, file, c.list)
         case Some(e) =>
           WithPhase(c, file, Reaped).(list := Without(c.list, e),
                                       requests := c.requests + [Request(file, 0, Dropping(e))])
         case None => WithPhase(c, file, Reaped))
    // its memory can be used again
    case Free(file) => c.(files := c.files - {file})
    // the filter stops filtering
    case Stop => c.(stopped := true)
    // KphpFltCleanupFileNameCache, one turn of its loop
    case Cleanup => if c.list == [] then c else Dropped(c.(list := c.list[1..]), c.list[0])
  }

  function Count(list: seq<nat>, e: nat): nat {
    if list == [] then 0 else (if list[0] == e then 1 else 0) + Count(list[1..], e)
  }

  /** The references that a request holds. */
  function Holds(pc: Pc, e: nat): nat {
    match pc
    case Inserting(own) => if own == e then 1 else 0
    case DroppingOwn(found, own) => (if found == e then 1 else 0) + (if own == e then 1 else 0)
    case Holding(x) => if x == e then 1 else 0
    case Dropping(x) => if x == e then 1 else 0
    case _ => 0
  }

  function Held(requests: seq<Request>, e: nat): nat {
    if requests == [] then 0 else Held(requests[..|requests| - 1], e) + Holds(requests[|requests| - 1].pc, e)
  }

  function CountOf(c: Cache, e: nat): nat {
    if e in c.entries then c.entries[e].count else 0
  }

  /** An entry is counted once for the list and once for each holder, and gone when
      nothing refers to it. */
  ghost predicate Counted(c: Cache) {
    && (forall e: nat :: CountOf(c, e) == Count(c.list, e) + Held(c.requests, e))
    && (forall e :: e in c.entries ==> c.entries[e].count > 0 && e < c.unused)
  }

  /** What a request may rely on. */
  predicate Right(c: Cache, r: Request) {
    && (Busy(r.pc) ==> !c.stopped && r.file in c.files && c.files[r.file] == File(r.name, Opened))
    && (r.pc.Holding? ==> Named(c, r.pc.entry, r))
    && (r.pc.Inserting? ==> Named(c, r.pc.own, r) && r.pc.own !in c.list && c.entries[r.pc.own].count == 1)
    && (r.pc.DroppingOwn? ==> Named(c, r.pc.found, r) && r.pc.found != r.pc.own && Named(c, r.pc.own, r))
  }

  predicate Named(c: Cache, e: nat, r: Request) {
    e in c.entries && c.entries[e].file == r.file && c.entries[e].name == r.name
  }

  /** A listed entry belongs to a file object that has not been reaped, and has its name;
      when the filter has stopped, nobody looks any more. */
  predicate Current(c: Cache, e: nat) {
    e in c.entries && (!c.stopped ==> Standing(c, c.entries[e]))
  }

  predicate Standing(c: Cache, x: Entry) {
    x.file in c.files && c.files[x.file].name == x.name && c.files[x.file].phase != Reaped
  }

  /** There is one entry for a file object at most. */
  ghost predicate Unique(c: Cache, list: seq<nat>) {
    forall j, k :: 0 <= j < k < |list| && list[j] in c.entries && list[k] in c.entries ==>
      c.entries[list[j]].file != c.entries[list[k]].file
  }

  ghost predicate Inv(c: Cache) {
    && !c.fault
    && Counted(c)
    && (forall r :: r in c.requests ==> Right(c, r))
    && (forall e :: e in c.list ==> Current(c, e))
    && Unique(c, c.list)
  }

  lemma {:induction false} FindRight(c: Cache, file: nat, list: seq<nat>)
    ensures var found := Find(c, file, list);
      if found.Some? then found.value in list && found.value in c.entries && c.entries[found.value].file == file
      else forall e :: e in list && e in c.entries ==> c.entries[e].file != file
  {
    if list != [] && !(list[0] in c.entries && c.entries[list[0]].file == file) {
      FindRight(c, file, list[1..]);
    }
  }

  lemma {:induction false} HeldUpdate(requests: seq<Request>, i: nat, r: Request, e: nat)
    requires i < |requests|
    ensures Held(requests[i := r], e) == Held(requests, e) - Holds(requests[i].pc, e) + Holds(r.pc, e)
    ensures Holds(requests[i].pc, e) <= Held(requests, e)
  {
    var n := |requests| - 1;
    if i == n {
      assert requests[i := r][..n] == requests[..n];
    } else {
      HeldUpdate(requests[..n], i, r, e);
      assert requests[i := r][..n] == requests[..n][i := r];
    }
  }

  lemma HeldAppend(requests: seq<Request>, r: Request, e: nat)
    ensures Held(requests + [r], e) == Held(requests, e) + Holds(r.pc, e)
  {
  }

  lemma {:induction false} CountMember(list: seq<nat>, e: nat)
    ensures e in list <==> Count(list, e) > 0
  {
    if list != [] {
      CountMember(list[1..], e);
    }
  }

  lemma {:induction false} WithoutCount(list: seq<nat>, e: nat, x: nat)
    requires e in list
    ensures Count(Without(list, e), x) == Count(list, x) - (if x == e then 1 else 0)
    ensures forall y :: y in Without(list, e) ==> y in list
  {
    if list[0] != e {
      WithoutCount(list[1..], e, x);
      assert ([list[0]] + Without(list[1..], e))[1..] == Without(list[1..], e);
    }
  }

  /** Entries keep their names, and only the next unused one can be new. */
  ghost predicate KeepsNames(c: Cache, c': Cache) {
    forall e :: e in c'.entries ==>
      if e in c.entries then c'.entries[e].file == c.entries[e].file && c'.entries[e].name == c.entries[e].name
      else e == c.unused
  }

  lemma ReferencedCount(c: Cache, e: nat, x: nat)
    requires e in c.entries
    ensures CountOf(Referenced(c, e), x) == CountOf(c, x) + (if x == e then 1 else 0)
    ensures KeepsNames(c, Referenced(c, e))
  {
  }

  lemma DroppedCount(c: Cache, e: nat, x: nat)
    requires e in c.entries && c.entries[e].count > 0
    ensures CountOf(Dropped(c, e), x) == CountOf(c, x) - (if x == e then 1 else 0)
    ensures KeepsNames(c, Dropped(c, e)) && Dropped(c, e).fault == c.fault
  {
  }

  /** Whatever a request holds exists. */
  lemma HeldExists(c: Cache, i: nat, e: nat)
    requires Counted(c) && i < |c.requests| && Holds(c.requests[i].pc, e) > 0
    ensures e in c.entries && c.entries[e].count >= Holds(c.requests[i].pc, e)
  {
    HeldUpdate(c.requests, i, c.requests[i], e);
    assert CountOf(c, e) > 0;
  }

  lemma ListedExists(c: Cache, e: nat)
    requires Counted(c) && e in c.list
    ensures e in c.entries
  {
    CountMember(c.list, e);
    assert CountOf(c, e) > 0;
  }

  /** Two requests do not hold an entry that is counted once. */
  lemma SoleHolder(c: Cache, i: nat, j: nat, e: nat)
    requires Counted(c) && i < |c.requests| && j < |c.requests| && i != j
    requires Holds(c.requests[i].pc, e) > 0 && CountOf(c, e) == 1
    ensures Holds(c.requests[j].pc, e) == 0
  {
    var none := Request(0, 0, Done);
    HeldUpdate(c.requests, i, none, e);
    HeldUpdate(c.requests[i := none], j, none, e);
  }

  /** A request that does not take part in a step keeps what it relies on. */
  lemma BystanderRight(c: Cache, c': Cache, i: nat)
    requires Counted(c) && Counted(c') && KeepsNames(c, c') && i < |c.requests| && i < |c'.requests|
    requires Right(c, c.requests[i]) && c'.requests[i] == c.requests[i]
    requires Busy(c.requests[i].pc) ==>
      !c'.stopped && c.requests[i].file in c'.files && c'.files[c.requests[i].file] == File(c.requests[i].name, Opened)
    requires c.requests[i].pc.Inserting? ==> c.requests[i].pc.own !in c'.list && CountOf(c', c.requests[i].pc.own) == 1
    ensures Right(c', c'.requests[i])
  {
    var r := c.requests[i];
    match r.pc
    case Holding(e) => HeldExists(c', i, e);
    case Inserting(e) => HeldExists(c', i, e);
    case DroppingOwn(found, own) =>
      HeldExists(c', i, found);
      HeldExists(c', i, own);
    case _ =>
  }

  /** So does a listed entry. */
  lemma BystanderCurrent(c: Cache, c': Cache, e: nat)
    requires Counted(c') && KeepsNames(c, c') && e in c'.list && Current(c, e)
    requires c'.stopped == c.stopped && c'.files == c.files
    ensures Current(c', e)
  {
    ListedExists(c', e);
  }

  lemma UniqueKept(c: Cache, c': Cache, list: seq<nat>)
    requires Unique(c, list) && KeepsNames(c, c') && forall e :: e in list ==> e in c.entries
    ensures Unique(c', list)
  {
  }

  /** The step of a request that leaves files and list alone, and does not touch the
      entries that others are about to insert. */
  ghost predicate Private(c: Cache, c': Cache, i: nat)
    requires i < |c.requests|
  {
    && c'.files == c.files && c'.stopped == c.stopped && c'.list == c.list && |c'.requests| == |c.requests| && !c'.fault
    && (forall j :: 0 <= j < |c.requests| && j != i ==> c'.requests[j] == c.requests[j])
    && Counted(c') && KeepsNames(c, c') && Right(c', c'.requests[i])
    && (forall j :: 0 <= j < |c.requests| && j != i && c.requests[j].pc.Inserting? ==>
          CountOf(c', c.requests[j].pc.own) == CountOf(c, c.requests[j].pc.own))
  }

  lemma PrivateKeeps(c: Cache, c': Cache, i: nat)
    requires Inv(c) && i < |c.requests| && Private(c, c', i)
    ensures Inv(c')
  {
    forall j | 0 <= j < |c'.requests| ensures Right(c', c'.requests[j]) {
      if j != i {
        assert c.requests[j] in c.requests;
        BystanderRight(c, c', j);
      }
    }
    forall e | e in c'.list ensures Current(c', e) {
      BystanderCurrent(c, c', e);
    }
    UniqueKept(c, c', c.list);
  }

  lemma AtHeld(c: Cache, i: nat, pc: Pc, x: nat)
    requires i < |c.requests|
    ensures Held(At(c, i, pc).requests, x) == Held(c.requests, x) - Holds(c.requests[i].pc, x) + Holds(pc, x)
  {
    HeldUpdate(c.requests, i, c.requests[i].(pc := pc), x);
  }

  /** The entry that is found is right for the request. */
  lemma FoundNamed(c: Cache, r: Request, e: nat)
    requires Inv(c) && r in c.requests && Busy(r.pc) && Find(c, r.file, c.list) == Some(e)
    ensures e in c.list && Named(c, e, r)
  {
    FindRight(c, r.file, c.list);
    assert Right(c, r) && Current(c, e);
  }

  lemma HitCounted(c: Cache, i: nat, e: nat)
    requires Inv(c) && i < |c.requests| && c.requests[i].pc == Looking && e in c.entries
    ensures var c' := At(Referenced(c, e), i, Holding(e)); Counted(c') && KeepsNames(c, c')
  {
    var c' := At(Referenced(c, e), i, Holding(e));
    forall x: nat ensures CountOf(c', x) == Count(c'.list, x) + Held(c'.requests, x) {
      ReferencedCount(c, e, x);
      AtHeld(c, i, Holding(e), x);
    }
  }

  lemma HitKeeps(c: Cache, i: nat, e: nat)
    requires Inv(c) && i < |c.requests| && c.requests[i].pc == Looking && Find(c, c.requests[i].file, c.list) == Some(e)
    ensures Inv(At(Referenced(c, e), i, Holding(e)))
  {
    var c' := At(Referenced(c, e), i, Holding(e));
    FoundNamed(c, c.requests[i], e);
    HitCounted(c, i, e);
    forall j | 0 <= j < |c.requests| && c.requests[j].pc.Inserting? ensures c.requests[j].pc.own != e {
      assert Right(c, c.requests[j]);
    }
    PrivateKeeps(c, c', i);
  }

  lemma MissKeeps(c: Cache, i: nat, pc: Pc)
    requires Inv(c) && i < |c.requests|
    requires (c.requests[i].pc == Looking && pc == Making) || (c.requests[i].pc == Making && pc == Done)
    ensures Inv(At(c, i, pc))
  {
    var c' := At(c, i, pc);
    forall x: nat ensures CountOf(c', x) == Count(c'.list, x) + Held(c'.requests, x) {
      AtHeld(c, i, pc, x);
    }
    assert Right(c, c.requests[i]);
    PrivateKeeps(c, c', i);
  }

  lemma MakeKeeps(c: Cache, i: nat)
    requires Inv(c) && i < |c.requests| && c.requests[i].pc == Making
    ensures Inv(GoOn(c, i, true))
  {
    var c', r := GoOn(c, i, true), c.requests[i];
    assert Right(c, r);
    forall x: nat ensures CountOf(c', x) == Count(c'.list, x) + Held(c'.requests, x) {
      AtHeld(c, i, Inserting(c.unused), x);
    }
    CountMember(c.list, c.unused);
    assert CountOf(c, c.unused) == 0;
    forall j | 0 <= j < |c.requests| && j != i && c.requests[j].pc.Inserting?
      ensures CountOf(c', c.requests[j].pc.own) == CountOf(c, c.requests[j].pc.own)
    {
      assert Right(c, c.requests[j]);
    }
    PrivateKeeps(c, c', i);
  }

  lemma LoseKeeps(c: Cache, i: nat, e: nat)
    requires Inv(c) && i < |c.requests| && c.requests[i].pc.Inserting? && Find(c, c.requests[i].file, c.list) == Some(e)
    ensures Inv(GoOn(c, i, true))
  {
    var c', own := GoOn(c, i, true), c.requests[i].pc.own;
    assert Right(c, c.requests[i]);
    FoundNamed(c, c.requests[i], e);
    forall x: nat ensures CountOf(c', x) == Count(c'.list, x) + Held(c'.requests, x) {
      ReferencedCount(c, e, x);
      AtHeld(c, i, DroppingOwn(e, own), x);
    }
    forall j | 0 <= j < |c.requests| && c.requests[j].pc.Inserting? ensures c.requests[j].pc.own != e {
      assert Right(c, c.requests[j]);
    }
    PrivateKeeps(c, c', i);
  }

  /** A reference that request i gives up. */
  predicate GivesUp(before: Pc, e: nat, after: Pc) {
    match before
    case DroppingOwn(found, own) => e == own && after == Holding(found)
    case Holding(x) => e == x && after == Done
    case Dropping(x) => e == x && after == Done
    case _ => false
  }

  lemma DropCounted(c: Cache, i: nat, e: nat, pc: Pc)
    requires Inv(c) && i < |c.requests| && GivesUp(c.requests[i].pc, e, pc)
    ensures var c' := At(Dropped(c, e), i, pc); Counted(c') && KeepsNames(c, c') && !c'.fault
  {
    var c' := At(Dropped(c, e), i, pc);
    HeldExists(c, i, e);
    forall x: nat ensures CountOf(c', x) == Count(c'.list, x) + Held(c'.requests, x) {
      DropCount(c, i, e, pc, x);
    }
    DroppedCount(c, e, e);
  }

  lemma DropCount(c: Cache, i: nat, e: nat, pc: Pc, x: nat)
    requires Counted(c) && i < |c.requests| && GivesUp(c.requests[i].pc, e, pc)
    ensures var c' := At(Dropped(c, e), i, pc); CountOf(c', x) == Count(c'.list, x) + Held(c'.requests, x)
  {
    HeldExists(c, i, e);
    DroppedCount(c, e, x);
    AtHeld(c, i, pc, x);
  }

  lemma DropOthers(c: Cache, i: nat, e: nat, j: nat)
    requires Inv(c) && i < |c.requests| && j < |c.requests| && j != i && Holds(c.requests[i].pc, e) > 0
    requires c.requests[j].pc.Inserting?
    ensures var own := c.requests[j].pc.own; own != e && CountOf(Dropped(c, e), own) == CountOf(c, own)
  {
    assert Right(c, c.requests[j]);
    HeldExists(c, i, e);
    if c.requests[j].pc.own == e {
      SoleHolder(c, j, i, e);
    }
    DroppedCount(c, e, c.requests[j].pc.own);
  }

  lemma DropKeeps(c: Cache, i: nat, e: nat, pc: Pc)
    requires Inv(c) && i < |c.requests| && GivesUp(c.requests[i].pc, e, pc)
    ensures Inv(At(Dropped(c, e), i, pc))
  {
    var c' := At(Dropped(c, e), i, pc);
    assert Right(c, c.requests[i]);
    DropCounted(c, i, e, pc);
    HeldExists(c, i, e);
    forall j | 0 <= j < |c.requests| && j != i && c.requests[j].pc.Inserting?
      ensures CountOf(c', c.requests[j].pc.own) == CountOf(c, c.requests[j].pc.own)
    {
      DropOthers(c, i, e, j);
    }
    if pc.Holding? {
      DroppedCount(c, e, pc.entry);
    }
    PrivateKeeps(c, c', i);
  }

  lemma CountFirst(list: seq<nat>, first: nat, x: nat)
    ensures Count([first] + list, x) == Count(list, x) + (if first == x then 1 else 0)
  {
  }

  lemma InsertCounted(c: Cache, i: nat)
    requires Inv(c) && i < |c.requests| && c.requests[i].pc.Inserting? && Find(c, c.requests[i].file, c.list) == None
    ensures Counted(GoOn(c, i, true)) && KeepsNames(c, GoOn(c, i, true))
  {
    var c', own := GoOn(c, i, true), c.requests[i].pc.own;
    assert Right(c, c.requests[i]);
    forall x: nat ensures CountOf(c', x) == Count(c'.list, x) + Held(c'.requests, x) {
      ReferencedCount(c, own, x);
      AtHeld(c, i, Holding(own), x);
      CountFirst(c.list, own, x);
    }
  }

  lemma InsertOthers(c: Cache, i: nat, j: nat)
    requires Inv(c) && i < |c.requests| && c.requests[i].pc.Inserting? && Find(c, c.requests[i].file, c.list) == None
    requires j < |c.requests| && j != i
    ensures Right(GoOn(c, i, true), c.requests[j])
  {
    var c', own := GoOn(c, i, true), c.requests[i].pc.own;
    InsertCounted(c, i);
    assert Right(c, c.requests[i]) && Right(c, c.requests[j]);
    if c.requests[j].pc.Inserting? {
      SoleHolder(c, i, j, own);
      ReferencedCount(c, own, c.requests[j].pc.own);
    }
    BystanderRight(c, c', j);
  }

  /** Request i inserts its entry. */
  lemma InsertKeeps(c: Cache, i: nat)
    requires Inv(c) && i < |c.requests| && c.requests[i].pc.Inserting? && Find(c, c.requests[i].file, c.list) == None
    ensures Inv(GoOn(c, i, true))
  {
    var c', r := GoOn(c, i, true), c.requests[i];
    assert Right(c, r);
    FindRight(c, r.file, c.list);
    InsertCounted(c, i);
    forall j | 0 <= j < |c'.requests| ensures Right(c', c'.requests[j]) {
      if j != i {
        InsertOthers(c, i, j);
      }
    }
    forall e | e in c'.list ensures Current(c', e) {
      if e != r.pc.own {
        assert Current(c, e);
        BystanderCurrent(c, c', e);
      }
    }
    UniqueKept(c, c', c.list);
    assert forall e :: e in c.list ==> c'.entries[e].file != r.file;
  }

  lemma AskKeeps(c: Cache, file: nat)
    requires Inv(c) && !c.stopped && IsOpen(c, file)
    ensures Inv(Step(c, Ask(file)))
  {
  }

  lemma OpenKeeps(c: Cache, file: nat, name: nat)
    requires Inv(c) && file !in c.files
    ensures Inv(Step(c, Open(file, name)))
  {
  }

  lemma {:induction false} WithoutUnique(c: Cache, list: seq<nat>, e: nat)
    requires Unique(c, list) && e in list && forall x :: x in list ==> x in c.entries
    ensures Unique(c, Without(list, e))
    ensures forall x :: x in Without(list, e) ==> x in list && c.entries[x].file != c.entries[e].file
  {
    if list[0] == e {
      forall x | x in list[1..] ensures c.entries[x].file != c.entries[e].file {
        var k :| 0 <= k < |list[1..]| && list[1..][k] == x;
        assert list[k + 1] == x;
      }
    } else {
      assert forall j, k :: 0 <= j < k < |list[1..]| ==> list[1..][j] == list[j + 1] && list[1..][k] == list[k + 1];
      WithoutUnique(c, list[1..], e);
      var rest := Without(list[1..], e);
      forall x | x in rest ensures c.entries[x].file != c.entries[list[0]].file {
        var k :| 0 <= k < |list[1..]| && list[1..][k] == x;
        assert list[k + 1] == x;
      }
      var j :| 0 <= j < |list| && list[j] == e;
      assert c.entries[list[0]].file != c.entries[list[j]].file;
    }
  }

  /** The requests and the listed entries, when only the file objects change. */
  lemma FilesChange(c: Cache, c': Cache)
    requires Inv(c) && c' == c.(files := c'.files, stopped := c'.stopped)
    requires forall r :: r in c.requests ==> Right(c', r)
    requires forall e :: e in c.list ==> Current(c', e)
    ensures Inv(c')
  {
    assert Counted(c) && forall x: nat :: CountOf(c', x) == CountOf(c, x);
    assert Unique(c', c'.list);
  }

  lemma CloseKeeps(c: Cache, file: nat)
    requires Inv(c) && Enabled(c, Close(file))
    ensures Inv(Step(c, Close(file)))
  {
    var c' := Step(c, Close(file));
    forall r | r in c.requests ensures Right(c', r) {
      assert Right(c, r);
    }
    forall e | e in c.list ensures Current(c', e) {
      assert Current(c, e);
    }
    FilesChange(c, c');
  }

  lemma ReapCounted(c: Cache, file: nat, e: nat)
    requires Counted(c) && file in c.files && Find(c, file, c.list) == Some(e)
    ensures Counted(Step(c, Reap(file)))
  {
    var c', r := Step(c, Reap(file)), Request(file, 0, Dropping(e));
    FindRight(c, file, c.list);
    forall x: nat ensures CountOf(c', x) == Count(c'.list, x) + Held(c'.requests, x) {
      WithoutCount(c.list, e, x);
      HeldAppend(c.requests, r, x);
    }
  }

  /** Reaping a closed file object removes its entry, so no entry of it is left. */
  lemma ReapKeeps(c: Cache, file: nat, e: nat)
    requires Inv(c) && Enabled(c, Reap(file)) && Find(c, file, c.list) == Some(e)
    ensures Inv(Step(c, Reap(file)))
  {
    var c', r := Step(c, Reap(file)), Request(file, 0, Dropping(e));
    FindRight(c, file, c.list);
    WithoutUnique(c, c.list, e);
    ReapCounted(c, file, e);
    forall q | q in c'.requests ensures Right(c', q) {
      if q in c.requests {
        assert Right(c, q);
      } else {
        assert q == r;
      }
    }
    forall x | x in c'.list ensures Current(c', x) {
      assert Current(c, x);
    }
  }

  lemma ReapNoneKeeps(c: Cache, file: nat)
    requires Inv(c) && Enabled(c, Reap(file)) && Find(c, file, c.list) == None
    ensures Inv(Step(c, Reap(file)))
  {
    var c' := Step(c, Reap(file));
    FindRight(c, file, c.list);
    forall q | q in c.requests ensures Right(c', q) {
      assert Right(c, q);
    }
    forall x | x in c.list ensures Current(c', x) {
      assert Current(c, x);
    }
    FilesChange(c, c');
  }

  lemma FreeKeeps(c: Cache, file: nat)
    requires Inv(c) && Enabled(c, Free(file))
    ensures Inv(Step(c, Free(file)))
  {
    var c' := Step(c, Free(file));
    forall r | r in c.requests ensures Right(c', r) {
      assert Right(c, r);
    }
    forall e | e in c.list ensures Current(c', e) {
      assert Current(c, e);
    }
    FilesChange(c, c');
  }

  lemma CleanupCounted(c: Cache)
    requires Inv(c) && c.list != []
    ensures var c' := Step(c, Cleanup); Counted(c') && KeepsNames(c, c') && !c'.fault && c'.list == c.list[1..]
  {
    var c', e := Step(c, Cleanup), c.list[0];
    assert Current(c, e);
    forall x: nat ensures CountOf(c', x) == Count(c'.list, x) + Held(c'.requests, x) {
      DroppedCount(c.(list := c.list[1..]), e, x);
    }
  }

  lemma CleanupKeeps(c: Cache)
    requires Inv(c) && c.list != []
    ensures Inv(Step(c, Cleanup))
  {
    var c', e := Step(c, Cleanup), c.list[0];
    assert Current(c, e);
    CleanupCounted(c);
    forall j | 0 <= j < |c'.requests| ensures Right(c', c'.requests[j]) {
      assert Right(c, c.requests[j]);
      if c.requests[j].pc.Inserting? {
        DroppedCount(c.(list := c.list[1..]), e, c.requests[j].pc.own);
      }
      BystanderRight(c, c', j);
    }
    forall x | x in c'.list ensures Current(c', x) {
      assert x in c.list;
      BystanderCurrent(c, c', x);
    }
    assert forall j, k :: 0 <= j < k < |c.list[1..]| ==>
      c.list[1..][j] == c.list[j + 1] && c.list[1..][k] == c.list[k + 1];
    UniqueKept(c, c', c.list[1..]);
  }

  lemma GoKeeps(c: Cache, i: nat, ok: bool)
    requires Inv(c) && Enabled(c, Go(i, ok))
    ensures Inv(GoOn(c, i, ok))
  {
    var r := c.requests[i];
    var found := Find(c, r.file, c.list);
    match r.pc
    case Looking =>
      if found.Some? {
        HitKeeps(c, i, found.value);
      } else {
        MissKeeps(c, i, Making);
      }
    case Making =>
      if ok {
        MakeKeeps(c, i);
      } else {
        MissKeeps(c, i, Done);
      }
    case Inserting(own) =>
      if found.Some? {
        LoseKeeps(c, i, found.value);
      } else {
        InsertKeeps(c, i);
      }
    case DroppingOwn(found, own) => DropKeeps(c, i, own, Holding(found));
    case Holding(e) => DropKeeps(c, i, e, Done);
    case Dropping(e) => DropKeeps(c, i, e, Done);
    case Done =>
  }

  lemma StopKeeps(c: Cache)
    requires Inv(c) && Enabled(c, Stop)
    ensures Inv(Step(c, Stop))
  {
    var c' := Step(c, Stop);
    forall r | r in c.requests ensures Right(c', r) {
      assert Right(c, r);
    }
    forall e | e in c.list ensures Current(c', e) {
      assert Current(c, e);
    }
    FilesChange(c, c');
  }

  /** Counts, uniqueness and names stay right, whatever step is next. */
  lemma StepKeeps(c: Cache, a: Action)
    requires Inv(c) && Enabled(c, a)
    ensures Inv(Step(c, a))
  {
    match a
    case Open(file, name) => OpenKeeps(c, file, name);
    case Ask(file) => AskKeeps(c, file);
    case Go(i, ok) => GoKeeps(c, i, ok);
    case Close(file) => CloseKeeps(c, file);
    case Reap(file) =>
      var found := Find(c, file, c.list);
      if found.Some? {
        ReapKeeps(c, file, found.value);
      } else {
        ReapNoneKeeps(c, file);
      }
    case Free(file) => FreeKeeps(c, file);
    case Stop => StopKeeps(c);
    case Cleanup => CleanupKeeps(c);
  }

  const EMPTY := Cache(map[], [], [], map[], 1, false, false)

  ghost predicate IsRun(run: seq<Cache>, acts: seq<Action>) {
    && |run| == |acts| + 1 && run[0] == EMPTY
    && forall k :: 0 <= k < |acts| ==> Enabled(run[k], acts[k]) && run[k + 1] == Step(run[k], acts[k])
  }

  lemma {:induction false} RunsKeep(run: seq<Cache>, acts: seq<Action>, k: nat)
    requires IsRun(run, acts) && k < |run|
    ensures Inv(run[k])
  {
    if k > 0 {
      RunsKeep(run, acts, k - 1);
      StepKeeps(run[k - 1], acts[k - 1]);
    }
  }

  /** No request ever gets the name of another file, though the memory of closed file
      objects is used again: the name it holds is that of the file object it asked
      about, as it was then. */
  lemma NeverAnOldName(run: seq<Cache>, acts: seq<Action>, k: nat, i: nat)
    requires IsRun(run, acts) && k < |run| && i < |run[k].requests| && run[k].requests[i].pc.Holding?
    ensures var c, r := run[k], run[k].requests[i];
      r.pc.entry in c.entries && c.entries[r.pc.entry].name == r.name && c.entries[r.pc.entry].file == r.file
  {
    RunsKeep(run, acts, k);
    assert Right(run[k], run[k].requests[i]);
  }

  /** While the filter runs, every listed entry is of a file object that has not been
      reaped, though it may be closed already, and has its name; and there is one at most
      for each. */
  lemma ListedAreStanding(run: seq<Cache>, acts: seq<Action>, k: nat, j: nat, l: nat)
    requires IsRun(run, acts) && k < |run| && j < |run[k].list| && l < |run[k].list|
    ensures var c := run[k];
      && c.list[j] in c.entries && c.list[l] in c.entries
      && (!c.stopped ==> Standing(c, c.entries[c.list[j]]))
      && (j != l ==> c.entries[c.list[j]].file != c.entries[c.list[l]].file)
  {
    RunsKeep(run, acts, k);
    assert Current(run[k], run[k].list[j]) && Current(run[k], run[k].list[l]);
  }

  /** No cached name survives its file object: from reaping on there is no entry for its
      address, until another file object is there. */
  lemma NoNameSurvives(run: seq<Cache>, acts: seq<Action>, k: nat, file: nat)
    requires IsRun(run, acts) && k < |run| && !run[k].stopped
    requires file !in run[k].files || run[k].files[file].phase == Reaped
    ensures Find(run[k], file, run[k].list) == None
  {
    RunsKeep(run, acts, k);
    FindRight(run[k], file, run[k].list);
  }

  lemma {:induction false} NoneHeld(requests: seq<Request>, e: nat)
    requires forall r :: r in requests ==> r.pc.Done? || r.pc.Looking? || r.pc.Making?
    ensures Held(requests, e) == 0
  {
    if requests != [] {
      NoneHeld(requests[..|requests| - 1], e);
    }
  }

  /** When the list is cleaned up and all requests are through, every entry is freed. */
  lemma AllFreed(c: Cache)
    requires Inv(c) && c.list == [] && forall r :: r in c.requests ==> r.pc == Done
    ensures c.entries == map[]
  {
    forall e: nat ensures CountOf(c, e) == 0 {
      NoneHeld(c.requests, e);
    }
    assert forall e :: e in c.entries ==> CountOf(c, e) > 0;
    assert c.entries.Keys == {};
  }

  /** Request i has held an entry in one of the states up to k. */
  ghost predicate HasHeld(run: seq<Cache>, k: nat, i: nat)
    requires k < |run|
  {
    exists j :: 0 <= j <= k && i < |run[j].requests| && run[j].requests[i].pc.Holding?
  }

  /** Request i is that of a file object that was reaped. */
  ghost predicate HasReaped(run: seq<Cache>, k: nat, i: nat)
    requires k < |run|
  {
    exists j :: 0 <= j <= k && i < |run[j].requests| && run[j].requests[i].pc.Dropping?
  }

  /** The entry of request i could not be made. */
  ghost predicate HasFailed(run: seq<Cache>, acts: seq<Action>, k: nat, i: nat)
    requires k < |run| == |acts| + 1
  {
    exists j :: 0 <= j < k && Fails(run[j], acts[j], i)
  }

  predicate Fails(c: Cache, a: Action, i: nat) {
    i < |c.requests| && c.requests[i].pc == Making && a == Go(i, false)
  }

  predicate ExactlyOne(a: bool, b: bool, c: bool) {
    (a && !b && !c) || (!a && b && !c) || (!a && !b && c)
  }

  /** What a request has come to, given what has happened to it. */
  predicate FateOk(pc: Pc, failed: bool, held: bool, reaped: bool) {
    match pc
    case Holding(_) => held && !failed && !reaped
    case Dropping(_) => reaped && !failed && !held
    case Done => ExactlyOne(failed, held, reaped)
    case _ => !failed && !held && !reaped
  }

  ghost predicate RequestOk(run: seq<Cache>, acts: seq<Action>, k: nat, i: nat)
    requires k < |run| == |acts| + 1 && i < |run[k].requests|
  {
    FateOk(run[k].requests[i].pc, HasFailed(run, acts, k, i), HasHeld(run, k, i), HasReaped(run, k, i))
  }

  /** Where a request goes from a stage. */
  predicate GoesTo(found: Option<nat>, unused: nat, ok: bool, pc: Pc, pc': Pc) {
    match pc
    case Looking => pc' == if found.Some? then Holding(found.value) else Making
    case Making => pc' == if ok then Inserting(unused) else Done
    case Inserting(own) => pc' == if found.Some? then DroppingOwn(found.value, own) else Holding(own)
    case DroppingOwn(e, _) => pc' == Holding(e)
    case Holding(_) => pc' == Done
    case Dropping(_) => pc' == Done
    case Done => pc' == Done
  }

  lemma SameRequests(c: Cache, e: nat)
    ensures Referenced(c, e).requests == c.requests && Dropped(c, e).requests == c.requests
  {
  }

  /** A step of a request changes nothing about any request but its stage. */
  lemma GoRequests(c: Cache, i: nat, ok: bool)
    requires i < |c.requests|
    ensures var c' := GoOn(c, i, ok);
      && i < |c'.requests| && c'.requests == c.requests[i := c.requests[i].(pc := c'.requests[i].pc)]
      && GoesTo(Find(c, c.requests[i].file, c.list), c.unused, ok, c.requests[i].pc, c'.requests[i].pc)
  {
    match c.requests[i].pc
    case Looking =>
    case Making =>
    case Inserting(own) =>
    case DroppingOwn(_, own) => SameRequests(c, own);
    case Holding(e) => SameRequests(c, e);
    case Dropping(e) => SameRequests(c, e);
    case Done =>
  }

  /** Any other step may bring a new request. */
  predicate NewRequests(before: seq<Request>, after: seq<Request>) {
    || after == before
    || (|after| == |before| + 1 && after[..|before|] == before
        && (after[|before|].pc.Looking? || after[|before|].pc.Dropping?))
  }

  lemma OtherRequests(c: Cache, a: Action)
    requires Enabled(c, a) && !a.Go?
    ensures NewRequests(c.requests, Step(c, a).requests)
  {
    match a
    case Cleanup => SameRequests(c.(list := c.list[1..]), c.list[0]);
    case Ask(_) =>
    case Reap(file) =>
    case _ =>
  }

  /** What one step makes of request i, and who is new. */
  predicate RequestStep(c: Cache, a: Action, c': Cache, i: nat) {
    && |c.requests| <= |c'.requests|
    && (|c.requests| <= i < |c'.requests| ==> c'.requests[i].pc.Looking? || c'.requests[i].pc.Dropping?)
    && (i < |c.requests| ==>
          && c'.requests[i].file == c.requests[i].file
          && (if a.Go? && a.i == i
              then GoesTo(Find(c, c.requests[i].file, c.list), c.unused, a.ok, c.requests[i].pc, c'.requests[i].pc)
              else c'.requests[i].pc == c.requests[i].pc))
  }

  lemma StepRequest(c: Cache, a: Action, i: nat)
    requires Enabled(c, a)
    ensures RequestStep(c, a, Step(c, a), i)
  {
    if a.Go? {
      GoRequests(c, a.i, a.ok);
    } else {
      OtherRequests(c, a);
      var before, after := c.requests, Step(c, a).requests;
      assert i < |before| < |after| ==> after[i] == after[..|before|][i];
    }
  }

  /** The part of a run that concerns request i. */
  ghost predicate Concerns(run: seq<Cache>, acts: seq<Action>, i: nat) {
    && |run| == |acts| + 1 && run[0].requests == []
    && forall k :: 0 <= k < |acts| ==> RequestStep(run[k], acts[k], run[k + 1], i)
  }

  lemma RunConcerns(run: seq<Cache>, acts: seq<Action>, i: nat)
    requires IsRun(run, acts)
    ensures Concerns(run, acts, i)
  {
    forall k | 0 <= k < |acts| ensures RequestStep(run[k], acts[k], run[k + 1], i) {
      StepRequest(run[k], acts[k], i);
    }
  }

  lemma {:induction false} RequestsGrow(run: seq<Cache>, acts: seq<Action>, i: nat, j: nat, k: nat)
    requires Concerns(run, acts, i) && j <= k < |run|
    ensures |run[j].requests| <= |run[k].requests|
  {
    if j < k {
      RequestsGrow(run, acts, i, j, k - 1);
      assert RequestStep(run[k - 1], acts[k - 1], run[k - 1 + 1], i);
    }
  }

  lemma NobodyYet(run: seq<Cache>, acts: seq<Action>, k: nat, i: nat)
    requires Concerns(run, acts, i) && k < |run| && i >= |run[k].requests|
    ensures !HasFailed(run, acts, k, i) && !HasHeld(run, k, i) && !HasReaped(run, k, i)
  {
    forall j | 0 <= j <= k ensures i >= |run[j].requests| {
      RequestsGrow(run, acts, i, j, k);
    }
  }

  lemma OneMoreState(run: seq<Cache>, acts: seq<Action>, k: nat, i: nat)
    requires 0 < k < |run| == |acts| + 1 && i < |run[k].requests|
    ensures HasFailed(run, acts, k, i) <==> HasFailed(run, acts, k - 1, i) || Fails(run[k - 1], acts[k - 1], i)
    ensures HasHeld(run, k, i) <==> HasHeld(run, k - 1, i) || run[k].requests[i].pc.Holding?
    ensures HasReaped(run, k, i) <==> HasReaped(run, k - 1, i) || run[k].requests[i].pc.Dropping?
  {
  }

  lemma StageFate(found: Option<nat>, unused: nat, ok: bool, pc: Pc, pc': Pc, failed: bool, held: bool, reaped: bool)
    requires FateOk(pc, failed, held, reaped) && GoesTo(found, unused, ok, pc, pc')
    ensures FateOk(pc', failed || (pc == Making && !ok), held || pc'.Holding?, reaped || pc'.Dropping?)
  {
  }

  lemma {:induction false} FateOf(run: seq<Cache>, acts: seq<Action>, k: nat, i: nat)
    requires Concerns(run, acts, i) && k < |run| && i < |run[k].requests|
    ensures RequestOk(run, acts, k, i)
  {
    if k > 0 {
      var c, a := run[k - 1], acts[k - 1];
      OneMoreState(run, acts, k, i);
      assert RequestStep(c, a, run[k - 1 + 1], i);
      if i >= |c.requests| {
        NobodyYet(run, acts, k - 1, i);
      } else {
        FateOf(run, acts, k - 1, i);
        if a.Go? && a.i == i {
          StageFate(Find(c, c.requests[i].file, c.list), c.unused, a.ok, c.requests[i].pc, run[k].requests[i].pc,
                    HasFailed(run, acts, k - 1, i), HasHeld(run, k - 1, i), HasReaped(run, k - 1, i));
        }
      }
    }
  }

  /** What becomes of a request: unless it is that of a reaped file object, it ends with
      a name that it has held, or because its entry could not be made. */
  lemma RequestFate(run: seq<Cache>, acts: seq<Action>, k: nat, i: nat)
    requires IsRun(run, acts) && k < |run| && i < |run[k].requests| && run[k].requests[i].pc == Done
    ensures ExactlyOne(HasFailed(run, acts, k, i), HasHeld(run, k, i), HasReaped(run, k, i))
  {
    RunConcerns(run, acts, i);
    FateOf(run, acts, k, i);
  }

  /** How many steps a request has before it at most. */
  function Rank(pc: Pc): nat {
    match pc
    case Looking => 5
    case Making => 4
    case Inserting(_) => 3
    case DroppingOwn(_, _) => 2
    case Holding(_) => 1
    case Dropping(_) => 1
    case Done => 0
  }

  /** Every step of a request brings it nearer to its end. */
  lemma RequestsEnd(c: Cache, i: nat, ok: bool)
    requires Enabled(c, Go(i, ok))
    ensures var c' := GoOn(c, i, ok);
      i < |c'.requests| && Rank(c'.requests[i].pc) < Rank(c.requests[i].pc)
  {
    GoRequests(c, i, ok);
  }

  /** Entry e is listed for a file object. */
  predicate Lists(c: Cache, e: nat, file: nat) {
    e in c.list && e in c.entries && c.entries[e].file == file
  }

  lemma {:induction false} UniqueFind(c: Cache, list: seq<nat>, e: nat)
    requires Unique(c, list) && e in list && e in c.entries && forall x :: x in list ==> x in c.entries
    ensures Find(c, c.entries[e].file, list) == Some(e)
  {
    if list[0] != e {
      var k :| 0 <= k < |list| && list[k] == e;
      assert c.entries[list[0]].file != c.entries[list[k]].file;
      assert forall j, l :: 0 <= j < l < |list[1..]| ==> list[1..][j] == list[j + 1] && list[1..][l] == list[l + 1];
      assert e in list[1..];
      UniqueFind(c, list[1..], e);
    }
  }

  lemma {:induction false} WithoutOther(list: seq<nat>, e: nat, x: nat)
    requires e in list && x in list && x != e
    ensures x in Without(list, e)
  {
    if list[0] != e && list[0] != x {
      WithoutOther(list[1..], e, x);
    }
  }

  /** An entry stays listed until its file object is reaped. */
  lemma ListedStays(c: Cache, a: Action, e: nat, file: nat)
    requires Inv(c) && Enabled(c, a) && Lists(c, e, file) && a != Reap(file) && a != Cleanup
    ensures Lists(Step(c, a), e, file)
  {
    StepKeeps(c, a);
    StaysInList(c, a, e, file);
    assert Current(Step(c, a), e);
    StepNames(c, a, e);
  }

  lemma StaysInList(c: Cache, a: Action, e: nat, file: nat)
    requires Enabled(c, a) && Lists(c, e, file) && a != Reap(file) && a != Cleanup
    ensures e in Step(c, a).list
  {
    if a.Reap? {
      FindRight(c, a.file, c.list);
      var found := Find(c, a.file, c.list);
      if found.Some? {
        WithoutOther(c.list, found.value, e);
      }
    } else if a.Go? {
      GoList(c, a.i, a.ok, e);
    }
  }

  lemma GoList(c: Cache, i: nat, ok: bool, e: nat)
    requires i < |c.requests|
    ensures e in c.list ==> e in GoOn(c, i, ok).list
  {
  }

  /** No step changes the file object of an entry. */
  lemma StepNames(c: Cache, a: Action, e: nat)
    requires Inv(c) && Enabled(c, a) && e in c.entries && e in Step(c, a).entries
    ensures Step(c, a).entries[e].file == c.entries[e].file
  {
    if a.Go? {
      GoNames(c, a.i, a.ok, e);
    }
  }

  lemma SameFileAfter(c: Cache, x: nat, e: nat)
    requires e in c.entries
    ensures e in Referenced(c, x).entries && Referenced(c, x).entries[e].file == c.entries[e].file
    ensures e in Dropped(c, x).entries ==> Dropped(c, x).entries[e].file == c.entries[e].file
  {
  }

  lemma GoNames(c: Cache, i: nat, ok: bool, e: nat)
    requires Counted(c) && i < |c.requests| && e in c.entries && e in GoOn(c, i, ok).entries
    ensures GoOn(c, i, ok).entries[e].file == c.entries[e].file
  {
    match c.requests[i].pc
    case Looking =>
      var found := Find(c, c.requests[i].file, c.list);
      if found.Some? {
        SameFileAfter(c, found.value, e);
      }
    case Inserting(own) =>
      var found := Find(c, c.requests[i].file, c.list);
      SameFileAfter(c, if found.Some? then found.value else own, e);
    case DroppingOwn(_, own) => SameFileAfter(c, own, e);
    case Holding(x) => SameFileAfter(c, x, e);
    case Dropping(x) => SameFileAfter(c, x, e);
    case _ =>
  }

  /** What a request that was made when the entry was listed already may be at. */
  predicate Shares(pc: Pc, e: nat) {
    pc == Looking || pc == Holding(e) || pc == Done || pc.Dropping?
  }

  lemma StepShares(c: Cache, a: Action, c': Cache, e: nat, i: nat)
    requires Inv(c) && RequestStep(c, a, c', i) && i < |c.requests| && Lists(c, e, c.requests[i].file)
    requires Shares(c.requests[i].pc, e)
    ensures Shares(c'.requests[i].pc, e)
  {
    assert forall x :: x in c.list ==> Current(c, x);
    UniqueFind(c, c.list, e);
  }

  lemma {:induction false} SharesOn(run: seq<Cache>, acts: seq<Action>, k: nat, n: nat, e: nat, i: nat, file: nat)
    requires Concerns(run, acts, i) && k < n < |run| && |run[k].requests| <= i < |run[n].requests|
    requires run[n].requests[i].file == file
    requires forall j :: k <= j < n ==> Inv(run[j]) && Lists(run[j], e, file)
    ensures Shares(run[n].requests[i].pc, e)
  {
    var c, a := run[n - 1], acts[n - 1];
    assert RequestStep(c, a, run[n - 1 + 1], i);
    if i < |c.requests| {
      SharesOn(run, acts, k, n - 1, e, i, file);
      StepShares(c, a, run[n], e, i);
    }
  }

  /** The purpose of the cache: from when an entry is listed for a file object until that
      is reaped, all requests about it get this entry, and none makes another one. */
  lemma SharedEntry(run: seq<Cache>, acts: seq<Action>, k: nat, n: nat, e: nat, i: nat, file: nat)
    requires IsRun(run, acts) && k < n < |run| && |run[k].requests| <= i < |run[n].requests|
    requires Lists(run[k], e, file) && run[n].requests[i].file == file
    requires forall j :: k <= j < n ==> acts[j] != Reap(file) && acts[j] != Cleanup
    ensures Shares(run[n].requests[i].pc, e)
  {
    forall j | k <= j < n ensures Inv(run[j]) && Lists(run[j], e, file) {
      RunsKeep(run, acts, j);
      StaysListed(run, acts, k, j, e, file);
    }
    RunConcerns(run, acts, i);
    SharesOn(run, acts, k, n, e, i, file);
  }

  lemma {:induction false} StaysListed(run: seq<Cache>, acts: seq<Action>, k: nat, n: nat, e: nat, file: nat)
    requires IsRun(run, acts) && k <= n < |run| && Lists(run[k], e, file)
    requires forall j :: k <= j < n ==> acts[j] != Reap(file) && acts[j] != Cleanup
    ensures Lists(run[n], e, file)
  {
    if k < n {
      StaysListed(run, acts, k, n - 1, e, file);
      RunsKeep(run, acts, n - 1);
      ListedStays(run[n - 1], acts[n - 1], e, file);
    }
  }

  /** A request that has made an entry leaves one listed for its file object, its own or
      that of a faster one, and goes on with that. */
  lemma InsertsOnce(c: Cache, i: nat, ok: bool)
    requires Inv(c) && i < |c.requests| && c.requests[i].pc.Inserting?
    ensures var c' := Step(c, Go(i, ok)); var pc := c'.requests[i].pc;
      && (pc.Holding? || pc.DroppingOwn?)
      && Lists(c', if pc.Holding? then pc.entry else pc.found, c.requests[i].file)
  {
    GoKeeps(c, i, ok);
    FindRight(c, c.requests[i].file, c.list);
    assert Right(c, c.requests[i]);
    var c' := Step(c, Go(i, ok));
    assert c'.requests[i] in c'.requests;
  }
}
