/**
 Sending a message to all connected clients, of which one may reply.
 */
module ReplyAuthority {

  datatype Message = Message(id: nat, valid: bool, content: seq<nat>)

  /** KphMsgUnhandled, as KphMsgInit writes it. */
  const UNHANDLED_ID: nat := 0xFFFF_FFFF

  const UNHANDLED := Message(UNHANDLED_ID, true, [])

  /** A client, and what would come of sending it the message: whether it is
      interested, whether sending succeeds and with which reply, the state of its
      process then, and whether a message can be allocated to copy this one into. */
  datatype Client = Client(process: nat, interested: bool, sends: bool, reply: Message, maximum: bool, allocates: bool)

  /** One attempt to let the client at an index of the list have the message. */
  datatype Attempt =
    | Synchronous(client: nat, mayReply: bool)
    | Asynchronous(client: nat)

  /** The call: the sending process, the target if there is one, and whether a reply
      is wanted. */
  datatype Call = Call(current: nat, target: nat, wantsReply: bool, fromQueue: bool)

  predicate Eligible(call: Call, c: Client) {
    (call.target == 0 || call.target == c.process) && c.interested
  }

  /** The client replies, and its reply stands. */
  predicate Settles(call: Call, c: Client) {
    && Eligible(call, c) && c.process != call.current
    && c.sends && c.maximum && c.reply.valid && c.reply.id != UNHANDLED_ID
  }

  /** The first of the clients whose reply stands; their number, if there is none. */
  function Authority(call: Call, clients: seq<Client>): (n: nat)
    ensures n <= |clients|
    ensures forall i :: 0 <= i < n ==> !Settles(call, clients[i])
    ensures n < |clients| ==> Settles(call, clients[n])
  {
    if clients == [] then 0
    else if Settles(call, clients[0]) then 0
    else 1 + Authority(call, clients[1..])
  }

  /** The last of them; their number, if there is none. */
  function LastSettling(call: Call, clients: seq<Client>): (n: nat)
    ensures n <= |clients|
    ensures forall i :: 0 <= i < |clients| && Settles(call, clients[i]) ==> i <= n < |clients|
    ensures n < |clients| ==> Settles(call, clients[n])
  {
    if clients == [] then 0
    else
      var rest := LastSettling(call, clients[1..]);
      if rest < |clients| - 1 then rest + 1
      else if Settles(call, clients[0]) then 0
      else |clients|
  }

  /** What the caller gets if a client, or none, has the authority to reply. */
  predicate IsReply(call: Call, clients: seq<Client>, authority: nat, reply: Message) {
    if call.wantsReply && authority < |clients| then reply == clients[authority].reply else reply.id == UNHANDLED_ID
  }

  /** No two clients have replies that stand. */
  predicate AtMostOneSettles(call: Call, clients: seq<Client>) {
    forall i, j :: 0 <= i < j < |clients| ==> !(Settles(call, clients[i]) && Settles(call, clients[j]))
  }

  /** The client with authority is the last one, as documented, if and only if at most
      one client's reply stands. */
  lemma LastHasAuthority(call: Call, clients: seq<Client>)
    ensures Authority(call, clients) == LastSettling(call, clients) <==> AtMostOneSettles(call, clients)
  {
    var first, last := Authority(call, clients), LastSettling(call, clients);
    if first == last {
      forall i, j | 0 <= i < j < |clients| ensures !(Settles(call, clients[i]) && Settles(call, clients[j])) {
        assert Settles(call, clients[i]) ==> first <= i;
        assert Settles(call, clients[j]) ==> j <= last;
      }
    }
  }

  predicate Earliest(call: Call, clients: seq<Client>, i: nat) {
    i < |clients| && Settles(call, clients[i]) && forall k :: 0 <= k < i ==> !Settles(call, clients[k])
  }

  predicate Latest(call: Call, clients: seq<Client>, j: nat) {
    j < |clients| && Settles(call, clients[j]) && forall k :: j < k < |clients| ==> !Settles(call, clients[k])
  }

  /** The caller gets the documented reply if and only if it wants none, or the first
      and the last of the clients whose replies stand have the same. */
  lemma DocumentedReply(call: Call, clients: seq<Client>, reply: Message)
    requires IsReply(call, clients, Authority(call, clients), reply)
    ensures IsReply(call, clients, LastSettling(call, clients), reply) <==>
      (call.wantsReply ==>
         forall i: nat, j: nat :: Earliest(call, clients, i) && Latest(call, clients, j) ==>
           clients[i].reply == clients[j].reply)
  {
    var first, last := Authority(call, clients), LastSettling(call, clients);
    if call.wantsReply && first < |clients| {
      assert Earliest(call, clients, first) && Latest(call, clients, last);
    }
  }

  /** A client that connects is appended to the list.  It has the authority to reply if
      and only if nobody's reply stood before. */
  lemma NewcomerHasAuthority(call: Call, clients: seq<Client>, newcomer: Client)
    requires Settles(call, newcomer)
    ensures LastSettling(call, clients + [newcomer]) == |clients|
    ensures Authority(call, clients + [newcomer]) == |clients|
       <==> (forall i :: 0 <= i < |clients| ==> !Settles(call, clients[i]))
  {
    var all := clients + [newcomer];
    assert all[|clients|] == newcomer;
    forall i | 0 <= i < |clients| ensures all[i] == clients[i] {
    }
    if Authority(call, all) < |clients| {
      assert Settles(call, clients[Authority(call, all)]);
    }
  }

  /** Two connected clients whose replies stand: the caller gets the first one's. */
  lemma FirstOfTwo(call: Call, a: Client, b: Client)
    requires call == Call(3, 0, true, false)
    requires a == Client(1, true, true, Message(7, true, []), true, true)
    requires b == Client(2, true, true, Message(8, true, []), true, true)
    ensures IsReply(call, [a, b], Authority(call, [a, b]), a.reply)
    ensures !IsReply(call, [a, b], LastSettling(call, [a, b]), a.reply)
  {
    assert [a, b][0] == a && [a, b][1] == b;
  }

  /** A reply is still looked for when it is the turn of a client. */
  predicate Open(call: Call, clients: seq<Client>, i: nat) {
    call.wantsReply && i <= Authority(call, clients)
  }

  function AttemptAt(call: Call, clients: seq<Client>, i: nat): seq<Attempt>
    requires i < |clients|
  {
    var c := clients[i];
    if !Eligible(call, c) then []
    else if Open(call, clients, i) && c.process == call.current then
      if c.allocates then [Asynchronous(i)] else []
    else [Synchronous(i, Open(call, clients, i))]
  }

  function Attempts(call: Call, clients: seq<Client>, n: nat): seq<Attempt>
    requires n <= |clients|
  {
    if n == 0 then [] else Attempts(call, clients, n - 1) + AttemptAt(call, clients, n - 1)
  }

  /** KphpCommsSendMessage on the list of connected clients. */
  method SendMessage(call: Call, clients: seq<Client>) returns (connected: bool, reply: Message, attempts: seq<Attempt>)
    requires call.target == 0 || !call.wantsReply
    requires call.fromQueue ==> !call.wantsReply
    ensures connected <==> clients != []
    ensures attempts == Attempts(call, clients, |clients|)
    ensures IsReply(call, clients, Authority(call, clients), reply)
    ensures reply.id != UNHANDLED_ID ==>
      call.wantsReply && exists i :: 0 <= i < |clients| && Trusts(call, clients[i], reply)
    ensures reply.id == UNHANDLED_ID && call.wantsReply ==>
      forall i, r :: 0 <= i < |clients| && Trusts(call, clients[i], r) ==> r.id == UNHANDLED_ID
  {
    reply, attempts := UNHANDLED, [];
    if clients == [] {
      return false, reply, attempts;
    }
    for i := 0 to |clients|
      invariant attempts == Attempts(call, clients, i)
      invariant var n := Authority(call, clients);
        if call.wantsReply && n < i then reply == clients[n].reply else reply.id == UNHANDLED_ID
    {
      var client := clients[i];
      if call.target != 0 && call.target != client.process {
        continue;
      }
      if !client.interested {
        continue;
      }
      var mayReply := call.wantsReply && reply.id == UNHANDLED_ID;
      if mayReply && call.current == client.process {
        if !client.allocates {
          continue;
        }
        attempts := attempts + [Asynchronous(i)];
        continue;
      }
      attempts := attempts + [Synchronous(i, mayReply)];
      var success := client.sends;
      if !mayReply {
        continue;
      }
      if success {
        reply := client.reply;
        if !client.maximum {
          success := false;
        } else {
          success := reply.valid;
        }
      }
      if !success {
        reply := UNHANDLED;
      }
    }
    connected := true;
  }

  /** A reply that the caller may rely on: it is the valid answer of an interested
      client that is another process, in the state of maximum protection. */
  predicate Trusts(call: Call, c: Client, reply: Message) {
    c.sends && reply == c.reply && reply.valid && c.maximum && c.interested && c.process != call.current
  }

  /** None of them may be missing: what the caller gets from one client, by what that
      client lacks. */
  lemma OneClient(call: Call, c: Client, reply: Message)
    requires call.wantsReply && call.target == 0 && IsReply(call, [c], Authority(call, [c]), reply)
    ensures !c.interested || c.process == call.current || !c.sends || !c.maximum || !c.reply.valid ==>
      reply.id == UNHANDLED_ID
    ensures c.interested && c.process != call.current && c.sends && c.maximum && c.reply.valid ==>
      reply == c.reply || reply.id == c.reply.id == UNHANDLED_ID
  {
    assert [c][0] == c && |[c]| == 1;
  }

  /** The attempts that concern one client. */
  function Concerning(attempts: seq<Attempt>, i: nat): seq<Attempt> {
    if attempts == [] then []
    else
      var last := attempts[|attempts| - 1];
      Concerning(attempts[..|attempts| - 1], i) + (if last.client == i then [last] else [])
  }

  lemma ConcerningMore(attempts: seq<Attempt>, more: seq<Attempt>, i: nat)
    requires |more| <= 1
    ensures Concerning(attempts + more, i) == Concerning(attempts, i) + Concerning(more, i)
  {
    if more == [] {
      assert attempts + more == attempts;
    } else {
      assert (attempts + more)[..|attempts|] == attempts && more[..0] == [];
    }
  }

  lemma OwnAttempt(call: Call, clients: seq<Client>, k: nat, i: nat)
    requires k < |clients|
    ensures Concerning(AttemptAt(call, clients, k), i) == if k == i then AttemptAt(call, clients, k) else []
  {
  }

  lemma NextTried(call: Call, clients: seq<Client>, n: nat, i: nat)
    requires 0 < n <= |clients|
    ensures var before := Concerning(Attempts(call, clients, n - 1), i);
      Concerning(Attempts(call, clients, n), i)
      == if n - 1 != i then before
         else if before == [] then AttemptAt(call, clients, i)
         else before + AttemptAt(call, clients, i)
  {
    var before, own := Attempts(call, clients, n - 1), AttemptAt(call, clients, n - 1);
    ConcerningMore(before, own, i);
    OwnAttempt(call, clients, n - 1, i);
    assert Attempts(call, clients, n) == before + own;
    assert Concerning(before, i) + [] == Concerning(before, i) && [] + own == own;
  }

  /** The attempts that concern a client are those of its turn. */
  lemma {:induction false} TriedInTurn(call: Call, clients: seq<Client>, n: nat, i: nat)
    requires n <= |clients| && i < |clients|
    ensures Concerning(Attempts(call, clients, n), i) == if i < n then AttemptAt(call, clients, i) else []
  {
    if n > 0 {
      var before := Concerning(Attempts(call, clients, n - 1), i);
      TriedInTurn(call, clients, n - 1, i);
      assert before == if i < n - 1 then AttemptAt(call, clients, i) else [];
      NextTried(call, clients, n, i);
    }
  }

  /** It is the turn of the sender itself while a reply is still looked for, and there
      is no memory for a copy of the message. */
  predicate PassedOver(call: Call, clients: seq<Client>, i: nat)
    requires i < |clients|
  {
    Open(call, clients, i) && clients[i].process == call.current && !clients[i].allocates
  }

  /** A client is tried once if it is eligible and not passed over, and never otherwise:
      synchronously, being offered to reply if nobody has yet, or by a copy of the
      message, if it is the sender itself and a reply is still looked for. */
  lemma TriedOnce(call: Call, clients: seq<Client>, i: nat)
    requires i < |clients|
    ensures var tried, c := Concerning(Attempts(call, clients, |clients|), i), clients[i];
      && |tried| == (if c.interested && call.target in {0, c.process} && !PassedOver(call, clients, i) then 1 else 0)
      && (|tried| == 1 ==>
            tried[0] == if Open(call, clients, i) && clients[i].process == call.current then Asynchronous(i)
                        else Synchronous(i, Open(call, clients, i)))
  {
    TriedInTurn(call, clients, |clients|, i);
  }
}
