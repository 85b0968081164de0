/**
 File operations as the filter sees them: a callback before the operation and, when
 asked for, one after it.

 `Filter` keeps what the callbacks have acquired and not yet released or handed
 over: messages, file names, and the completion contexts that carry messages and
 names from the first callback to the second.
 */
module FileOperations {
  import opened Wrappers

  datatype Major = Create | SetInformation | Close | Shutdown | Other

  datatype Kind = Message | NameInfo | StreamContext | CopiedName | CacheEntry | Completion

  /** Something to be released once, in the way of its kind. */
  datatype Resource = Resource(unit: nat, kind: Kind)

  /** KPH_FLT_FILE_NAME. */
  datatype FileName = NoName | SomeName(resource: Resource, normalized: bool)

  datatype Operation = Operation(major: Major, renames: bool, paging: bool, syncPaging: bool)

  datatype Options = Options(
    preEnabled: bool, postEnabled: bool, pagingIo: bool, syncPagingIo: bool,
    postFileNames: bool, preCreateReply: bool, postCreateReply: bool)

  /** KPH_FLT_COMPLETION_CONTEXT. */
  datatype Context = Context(self: nat, message: Option<nat>, fileName: Option<Resource>, destName: Option<Resource>,
                             postCreateReply: bool, preSequence: nat)

  /** What the first callback tells the filter manager; `code` is the status of an
      operation that it completes itself. */
  datatype Status = NoCallback | WithCallback | Complete(code: nat)

  /** What becomes of a message that is sent to wait for a reply: it fails, or there is a
      reply, perhaps to another message, with a status that is 0 for success. */
  datatype Reply = Failed | Reply(expected: bool, status: nat)

  predicate Refuses(reply: Reply) {
    reply.Reply? && reply.expected && reply.status != 0
  }

  /** What a client is sent: the sequence number of the callback, and for the second
      one that of the first. */
  datatype Sent = Pre(sequence: nat) | Post(sequence: nat, preSequence: nat)

  predicate TunnelingPossible(op: Operation) {
    op.major == Create || (op.major == SetInformation && op.renames)
  }

  function Names(n: FileName): set<Resource> {
    if n.SomeName? then {n.resource} else {}
  }

  function Optional(r: Option<Resource>): set<Resource> {
    if r.Some? then {r.value} else {}
  }

  /** Everything that a completion context is responsible for. */
  function Owned(c: Option<Context>): set<Resource> {
    if c.None? then {}
    else
      {Resource(c.value.self, Completion)}
      + (if c.value.message.Some? then {Resource(c.value.message.value, Message)} else {})
      + Optional(c.value.fileName) + Optional(c.value.destName)
  }

  ghost predicate Whole(c: Context) {
    && c.message.Some?
    && (c.fileName.Some? ==> c.fileName.value.kind == NameInfo)
    && (c.destName.Some? ==> c.destName.value.kind == NameInfo)
    && (c.fileName.Some? && c.destName.Some? ==> c.fileName != c.destName)
  }

  /** The options exclude an operation. */
  predicate Skips(op: Operation, options: Options) {
    || (!options.preEnabled && !options.postEnabled)
    || (!options.pagingIo && op.paging)
    || (!options.syncPagingIo && op.syncPaging)
  }

  /** A message before the operation is wanted, and one after it. */
  predicate WantsPre(op: Operation, options: Options) {
    options.preEnabled && !Skips(op, options)
  }

  predicate WantsPost(op: Operation, options: Options) {
    options.postEnabled && !Skips(op, options)
  }

  /** The client may refuse to let a file be opened, before that or after it. */
  predicate RefusedBefore(op: Operation, options: Options, reply: Reply) {
    op.major == Create && WantsPre(op, options) && options.preCreateReply && Refuses(reply)
  }

  predicate RefusedAfter(op: Operation, options: Options, reply: Reply) {
    op.major == Create && WantsPost(op, options) && options.postCreateReply && Refuses(reply)
  }

  /** The names that have to be resolved after the operation. */
  predicate KeepsName(op: Operation, options: Options, n: FileName) {
    && options.postFileNames && TunnelingPossible(op)
    && n.SomeName? && n.resource.kind == NameInfo && n.normalized
  }

  /** The messages of an operation; the one after it names the sequence number of the
      first callback. */
  function Messages(pre: bool, post: bool, first: nat, second: nat): seq<Sent> {
    (if pre then [Pre(first)] else []) + (if post then [Post(second, first)] else [])
  }

  /** Messages are sent only if they are wanted, and if no allocation fails they are:
      `lossless` says that none did. */
  predicate Reports(before: seq<Sent>, after: seq<Sent>, pre: bool, post: bool, lossless: bool,
                    first: nat, second: nat)
  {
    || after == before + Messages(pre, post, first, second)
    || (!lossless && pre && after == before + Messages(false, post, first, second))
    || (!lossless && post && after == before + Messages(pre, false, first, second))
    || (!lossless && after == before)
  }

  /** The same, up to the end of the first callback. */
  predicate ReportsFirst(before: seq<Sent>, after: seq<Sent>, pre: bool, lossless: bool, first: nat) {
    after == before + (if pre then [Pre(first)] else []) || (!lossless && after == before)
  }

  lemma FirstOnly(before: seq<Sent>, after: seq<Sent>, pre: bool, post: bool, lossless: bool, first: nat, second: nat)
    requires ReportsFirst(before, after, pre, lossless, first) && (post ==> !lossless)
    ensures Reports(before, after, pre, post, lossless, first, second)
  {
    assert before + [] == before;
    assert (if pre then [Pre(first)] else []) + [] == if pre then [Pre(first)] else [];
  }

  lemma BothReported(before: seq<Sent>, middle: seq<Sent>, after: seq<Sent>, pre: bool, lossless: bool, lossless': bool,
                     first: nat, second: nat)
    requires ReportsFirst(before, middle, pre, lossless, first)
    requires after == middle + [Post(second, first)] || (!lossless' && after == middle)
    ensures Reports(before, after, pre, true, lossless && lossless', first, second)
  {
    var sent := if pre then [Pre(first)] else [];
    assert before + [] == before && [] + [Post(second, first)] == [Post(second, first)] && sent + [] == sent;
    assert (before + sent) + [Post(second, first)] == before + (sent + [Post(second, first)]);
  }

  /** The client refuses the file that was opened. */
  predicate Cancels(op: Operation, c: Context, draining: bool, reply: Reply) {
    !draining && op.major == Create && c.postCreateReply && Refuses(reply)
  }

  class Filter {
    var live: set<Resource>
    var next: nat
    var sequence: nat
    var sent: seq<Sent>
    var reaped: nat
    const healthy: bool
    ghost var failures: nat

    /** When `healthy`, no allocation fails. */
    constructor (healthy: bool)
      ensures Valid() && live == {} && sent == [] && reaped == 0 && this.healthy == healthy
    {
      this.healthy := healthy;
      live, next, sequence, sent, reaped, failures := {}, 0, 0, [], 0, 0;
    }

    ghost predicate Valid()
      reads this
    {
      forall r :: r in live ==> r.unit < next
    }

    /** Allocations may have failed, but not when healthy. */
    ghost predicate Failing(before: nat)
      reads this
    {
      failures >= before && (healthy ==> failures == before)
    }

    /** Whether an allocation succeeds. */
    method Available() returns (ok: bool)
      modifies this`failures
      ensures failures == (old(failures) + if ok then 0 else 1) && (healthy ==> ok)
    {
      ok := true;
      if !healthy {
        ok := *;
      }
      if !ok {
        failures := failures + 1;
      }
    }

    /** An allocation, or another reference. */
    method Acquire(kind: Kind) returns (r: Resource)
      requires Valid()
      modifies this`live, this`next
      ensures Valid() && r == Resource(old(next), kind) && next == old(next) + 1
      ensures r !in old(live) && live == old(live) + {r}
    {
      r := Resource(next, kind);
      live := live + {r};
      next := next + 1;
    }

    /** A release, or the end of ownership: of something that is there, and of its kind. */
    method Release(r: Resource)
      requires Valid() && r in live
      modifies this`live
      ensures Valid() && live == old(live) - {r}
    {
      live := live - {r};
    }

    /** KphpFltReleaseFileName. */
    method ReleaseName(n: FileName)
      requires Valid() && Names(n) <= live
      modifies this`live
      ensures Valid() && live == old(live) - Names(n)
    {
      if n.SomeName? {
        Release(n.resource);
      }
    }

    /** KphpFltGetFileName, or its counterpart for destinations. */
    method GetName() returns (n: FileName)
      requires Valid()
      modifies this`live, this`next
      ensures Valid() && live == old(live) + Names(n) && Names(n) !! old(live) && next >= old(next)
      ensures n.SomeName? ==> n.resource.unit >= old(next) && (n.resource.kind != NameInfo ==> !n.normalized)
    {
      var found: bool := *;
      if !found {
        return NoName;
      }
      var kind: Kind := *;
      var normalized: bool := *;
      var r := Acquire(if kind == Message || kind == Completion then NameInfo else kind);
      n := SomeName(r, r.kind == NameInfo && normalized);
    }

    /** KphCommsSendNPagedMessageAsync, which takes the message over. */
    method SendAsync(message: nat, what: Sent)
      requires Valid() && Resource(message, Message) in live
      modifies this`live, this`sent
      ensures Valid() && live == old(live) - {Resource(message, Message)} && sent == old(sent) + [what]
    {
      Release(Resource(message, Message));
      sent := sent + [what];
    }

    /** KphCommsSendMessage, which leaves the message with the caller. */
    method SendSync(what: Sent)
      modifies this`sent
      ensures sent == old(sent) + [what]
    {
      sent := sent + [what];
    }

    /** KphpFltPreOpSend; `reply` is what the client answers if it is asked. */
    method PreOpSend(op: Operation, options: Options, number: nat, reply: Reply) returns (status: Status)
      requires Valid()
      modifies this`live, this`next, this`sent, this`failures
      ensures Valid() && live == old(live) && next >= old(next) && Failing(old(failures))
      ensures var refused := op.major == Create && options.preCreateReply && Refuses(reply);
        if refused && failures == old(failures) then status == Complete(reply.status) else status == NoCallback
      ensures ReportsFirst(old(sent), sent, true, failures == old(failures), number)
    {
      var available := Available();
      if !available {
        return NoCallback;
      }
      var message := Acquire(Message);
      if op.major != Create || !options.preCreateReply {
        SendAsync(message.unit, Pre(number));
        return NoCallback;
      }
      status := NoCallback;
      available := Available();
      if available {
        var answer := Acquire(Message);
        SendSync(Pre(number));
        if reply.Reply? && reply.expected && reply.status != 0 {
          status := Complete(reply.status);
        }
        Release(answer);
      }
      Release(message);
    }

    /** A name that may have to be resolved after the operation is referenced. */
    method KeepName(n: FileName) returns (r: Option<Resource>)
      requires Valid() && Names(n) <= live
      modifies this`live, this`next
      ensures Valid() && live == old(live) + Optional(r) && Optional(r) !! old(live) && next >= old(next)
      ensures r.Some? <==> n.SomeName? && n.resource.kind == NameInfo && n.normalized
      ensures r.Some? ==> r.value.unit >= old(next) && r.value.kind == NameInfo && r.value.unit < next
    {
      if n.SomeName? && n.resource.kind == NameInfo && n.normalized {
        var x := Acquire(NameInfo);
        return Some(x);
      }
      r := None;
    }

    /** KphpFltFreeCompletionContext. */
    method FreeContext(c: Context)
      requires Valid() && Owned(Some(c)) <= live
      requires c.fileName.Some? && c.destName.Some? ==> c.fileName != c.destName
      requires c.fileName.Some? ==> c.fileName.value.kind == NameInfo
      requires c.destName.Some? ==> c.destName.value.kind == NameInfo
      modifies this`live
      ensures Valid() && live == old(live) - Owned(Some(c))
    {
      if c.message.Some? {
        Release(Resource(c.message.value, Message));
      }
      if c.fileName.Some? {
        Release(c.fileName.value);
      }
      if c.destName.Some? {
        Release(c.destName.value);
      }
      Release(Resource(c.self, Completion));
    }

    /** KphpFltPreOpCreateCompletionContext. */
    method CreateContext(op: Operation, options: Options, name: FileName, dest: FileName, number: nat)
      returns (context: Option<Context>)
      requires Valid() && Names(name) <= live && Names(dest) <= live
      modifies this`live, this`next, this`failures
      ensures Valid() && live == old(live) + Owned(context) && Owned(context) !! old(live) && next >= old(next)
      ensures Failing(old(failures)) && (context.None? <==> failures > old(failures))
      ensures context.Some? ==>
        && Whole(context.value) && context.value.preSequence == number
        && context.value.postCreateReply == options.postCreateReply
        && (context.value.fileName.Some? <==> KeepsName(op, options, name))
        && (context.value.destName.Some? <==> KeepsName(op, options, dest) && op.major != Create)
    {
      var available := Available();
      if !available {
        return None;
      }
      var self := Acquire(Completion);
      available := Available();
      if !available {
        FreeContext(Context(self.unit, None, None, None, options.postCreateReply, number));
        return None;
      }
      var message := Acquire(Message);
      var fileName, destName: Option<Resource> := None, None;
      if options.postFileNames && TunnelingPossible(op) {
        fileName := KeepName(name);
        if op.major != Create {
          destName := KeepName(dest);
        }
      }
      context := Some(Context(self.unit, Some(message.unit), fileName, destName, options.postCreateReply, number));
    }

    /** KphpFltPostOp; `reply` is what the client answers if it is asked, and the opening
        of a file may be canceled with a status. */
    method PostOp(op: Operation, completion: Option<Context>, draining: bool, reply: Reply)
      returns (canceled: Option<nat>)
      requires Valid() && Owned(completion) <= live && (completion.Some? ==> Whole(completion.value))
      modifies this
      ensures Valid() && live == old(live) - Owned(completion) && sequence == old(sequence) + 1
      ensures reaped == old(reaped) + (if op.major == Close then 1 else 0)
      ensures Failing(old(failures))
      ensures if completion.None? || draining then sent == old(sent)
              else sent == old(sent) + [Post(sequence, completion.value.preSequence)]
                   || (failures > old(failures) && sent == old(sent))
      ensures var refused := completion.Some? && Cancels(op, completion.value, draining, reply);
        canceled == if refused && failures == old(failures) then Some(reply.status) else None
    {
      sequence := sequence + 1;
      canceled := None;
      if completion.Some? {
        canceled := FinishContext(op, completion.value, draining, reply);
      }
      if op.major == Close {
        reaped := reaped + 1;
      }
    }

    /** The part of KphpFltPostOp with a completion context. */
    method FinishContext(op: Operation, c: Context, draining: bool, reply: Reply) returns (canceled: Option<nat>)
      requires Valid() && Owned(Some(c)) <= live && Whole(c)
      modifies this`live, this`next, this`sent, this`failures
      ensures Valid() && live == old(live) - Owned(Some(c)) && Failing(old(failures))
      ensures if draining then sent == old(sent)
              else sent == old(sent) + [Post(sequence, c.preSequence)]
                   || (failures > old(failures) && sent == old(sent))
      ensures canceled
           == if Cancels(op, c, draining, reply) && failures == old(failures) then Some(reply.status) else None
    {
      canceled := None;
      if draining {
        FreeContext(c);
        return;
      }
      if op.major != Create || !c.postCreateReply {
        SendAsync(c.message.value, Post(sequence, c.preSequence));
        FreeContext(c.(message := None));
        return;
      }
      var available := Available();
      if available {
        var answer := Acquire(Message);
        SendSync(Post(sequence, c.preSequence));
        if reply.Reply? && reply.expected && reply.status != 0 {
          canceled := Some(reply.status);
        }
        Release(answer);
      }
      FreeContext(c);
    }

    /** KphpFltPreOp. */
    method PreOp(op: Operation, options: Options, reply: Reply) returns (status: Status, context: Option<Context>)
      requires Valid()
      modifies this
      ensures Valid() && live == old(live) + Owned(context) && Owned(context) !! old(live) && Failing(old(failures))
      ensures context.Some? ==>
        && Whole(context.value) && status == WithCallback && context.value.preSequence == sequence == old(sequence) + 1
        && WantsPost(op, options) && context.value.postCreateReply == options.postCreateReply
      ensures op.major != Shutdown ==>
        && sequence == old(sequence) + 1
        && ReportsFirst(old(sent), sent, WantsPre(op, options), failures == old(failures), sequence)
        && (context.None? && WantsPost(op, options) ==> status.Complete? || failures > old(failures))
      ensures op.major == Shutdown ==>
        && context.None? && status == NoCallback
        && Reports(old(sent), sent, WantsPre(op, options), WantsPost(op, options), failures == old(failures),
                   old(sequence) + 1, old(sequence) + 2)
      ensures op.major == Close ==> status == WithCallback
      ensures status == WithCallback ==> context.Some? || op.major == Close
      ensures status.Complete? ==> RefusedBefore(op, options, reply) && status.code == reply.status
      ensures RefusedBefore(op, options, reply) ==> status.Complete? || failures > old(failures)
      ensures reaped == old(reaped)
    {
      context := None;
      sequence := sequence + 1;
      status := NoCallback;
      if !Skips(op, options) {
        status, context := PreOpNamed(op, options, sequence, reply);
      } else {
        assert sent + [] == sent;
      }
      if status != WithCallback && op.major == Close {
        assert !status.Complete?;
        status := WithCallback;
      }
    }

    /** The part of KphpFltPreOp that gathers names, between acquiring and releasing them. */
    method PreOpNamed(op: Operation, options: Options, number: nat, reply: Reply)
      returns (status: Status, context: Option<Context>)
      requires Valid() && number == sequence && !Skips(op, options)
      modifies this
      ensures Valid() && live == old(live) + Owned(context) && Owned(context) !! old(live) && Failing(old(failures))
      ensures context.Some? ==>
        && Whole(context.value) && status == WithCallback && context.value.preSequence == number == sequence
        && options.postEnabled && context.value.postCreateReply == options.postCreateReply
      ensures op.major != Shutdown ==>
        && sequence == number
        && ReportsFirst(old(sent), sent, options.preEnabled, failures == old(failures), number)
        && (context.None? && options.postEnabled ==> status.Complete? || failures > old(failures))
      ensures op.major == Shutdown ==>
        && context.None? && status == NoCallback
        && Reports(old(sent), sent, options.preEnabled, options.postEnabled, failures == old(failures),
                   number, number + 1)
      ensures status == WithCallback ==> context.Some?
      ensures status.Complete? ==> RefusedBefore(op, options, reply) && status.code == reply.status
      ensures RefusedBefore(op, options, reply) ==> status.Complete? || failures > old(failures)
      ensures reaped == old(reaped)
    {
      context := None;
      var name := GetName();
      var dest := NoName;
      if op.major == SetInformation && op.renames {
        dest := GetName();
      }
      status, context := SendAndPrepare(op, options, name, dest, number, reply);
      status, context := HandOver(op, options, status, context, number, reply, old(sent), old(failures));
      ReleaseName(dest);
      ReleaseName(name);
    }

    /** The message before the operation is sent, and the completion context is made. */
    method SendAndPrepare(op: Operation, options: Options, name: FileName, dest: FileName, number: nat, reply: Reply)
      returns (status: Status, context: Option<Context>)
      requires Valid() && Names(name) <= live && Names(dest) <= live && !Skips(op, options)
      modifies this`live, this`next, this`sent, this`failures
      ensures Valid() && live == old(live) + Owned(context) && Owned(context) !! old(live) && Failing(old(failures))
      ensures ReportsFirst(old(sent), sent, options.preEnabled, failures == old(failures), number)
      ensures context.Some? ==>
        && Whole(context.value) && context.value.preSequence == number && status == NoCallback && options.postEnabled
        && context.value.postCreateReply == options.postCreateReply
      ensures context.None? && options.postEnabled ==> status.Complete? || failures > old(failures)
      ensures status == NoCallback || (RefusedBefore(op, options, reply) && status == Complete(reply.status))
      ensures RefusedBefore(op, options, reply) ==> status.Complete? || failures > old(failures)
    {
      status, context := NoCallback, None;
      if options.preEnabled {
        status := PreOpSend(op, options, number, reply);
      } else {
        assert sent + [] == sent;
      }
      if !status.Complete? && options.postEnabled {
        context := CreateContext(op, options, name, dest, number);
      }
    }

    /** The completion context is handed over to the second callback, which is called right
        away for a shutdown. */
    method HandOver(op: Operation, options: Options, before: Status, made: Option<Context>, number: nat,
                    reply: Reply, ghost sent0: seq<Sent>, ghost failures0: nat)
      returns (status: Status, context: Option<Context>)
      requires Valid() && Owned(made) <= live && number == sequence && before != WithCallback && Failing(failures0)
      requires made.Some? ==>
        Whole(made.value) && made.value.preSequence == number && before == NoCallback && options.postEnabled
      requires ReportsFirst(sent0, sent, options.preEnabled, failures == failures0, number)
      requires made.None? && options.postEnabled ==> before.Complete? || failures > failures0
      requires before.Complete? ==> op.major == Create
      modifies this
      ensures Valid() && live == old(live) - Owned(made) + Owned(context) && Failing(old(failures))
      ensures context == (if op.major == Shutdown then None else made)
      ensures status == (if context.Some? then WithCallback else before) && reaped == old(reaped)
      ensures op.major != Shutdown ==> sequence == number && sent == old(sent) && failures == old(failures)
      ensures op.major == Shutdown ==>
        Reports(sent0, sent, options.preEnabled, options.postEnabled, failures == failures0, number, number + 1)
    {
      status, context := before, made;
      if made.Some? {
        if op.major == Shutdown {
          ghost var middle, lossless := sent, failures == failures0;
          var canceled := PostOp(op, made, false, reply);
          BothReported(sent0, middle, sent, options.preEnabled, lossless, failures == old(failures),
                       number, number + 1);
          context := None;
        } else {
          status := WithCallback;
        }
      } else {
        FirstOnly(sent0, sent, options.preEnabled, options.postEnabled && !before.Complete?,
                  failures == failures0, number, number + 1);
      }
    }

    /** An operation: the first callback, and the second if it was asked for and the
        operation was not completed; `draining` if the filter is being unloaded.  The
        result is the status with which a client has refused it. */
    method Perform(op: Operation, options: Options, draining: bool, preReply: Reply, postReply: Reply)
      returns (completed: bool, refusal: Option<nat>)
      requires Valid()
      modifies this
      ensures Valid() && live == old(live) && Failing(old(failures))
      ensures reaped == old(reaped) + (if op.major == Close then 1 else 0)
      ensures completed ==> RefusedBefore(op, options, preReply)
      ensures failures == old(failures) ==> (completed <==> RefusedBefore(op, options, preReply))
      ensures failures == old(failures) ==>
        refusal == if RefusedBefore(op, options, preReply) then Some(preReply.status)
                   else if RefusedAfter(op, options, postReply) && !draining then Some(postReply.status)
                   else None
      ensures refusal.Some? ==>
        || (completed && refusal.value == preReply.status)
        || (RefusedAfter(op, options, postReply) && refusal.value == postReply.status)
      ensures Reports(old(sent), sent, WantsPre(op, options),
                      WantsPost(op, options) && !completed && (op.major == Shutdown || !draining),
                      failures == old(failures), old(sequence) + 1, old(sequence) + 2)
    {
      var status, context := PreOp(op, options, preReply);
      completed, refusal := status.Complete?, if status.Complete? then Some(status.code) else None;
      ghost var middle, lossless := sent, failures == old(failures);
      ghost var before := failures;
      if status == WithCallback {
        refusal := PostOp(op, context, draining, postReply);
      }
      if op.major != Shutdown {
        if context.Some? && !draining {
          BothReported(old(sent), middle, sent, WantsPre(op, options), lossless, failures == before, old(sequence) + 1,
                       old(sequence) + 2);
        } else {
          FirstOnly(old(sent), sent, WantsPre(op, options), WantsPost(op, options) && !completed && !draining,
                    failures == old(failures), old(sequence) + 1, old(sequence) + 2);
        }
      }
    }
  }
}
