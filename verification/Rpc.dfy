/**
 Request correlation in internal/lsp/client.go: the pending map, the two reply channels of each
 request, and every step that may touch them. C is what a reply carries.
 */
module Rpc {

  datatype Question = Question(name: string, params: string)

  datatype Reply<C> = Reply(content: C, isError: bool)

  /** What arrives on a request's error channel. */
  datatype Failure<C> = RpcError(content: C) | ProcessExited

  datatype Outcome<C> =
    | Answered(content: C)
    | AnsweredError(content: C)
    | Exited
    | WriteFailed
    | TimedOut
    | ContextEnded

  /**
   nextId     the last id handed out
   issued     every request ever registered, with its question
   pending    the ids in the pending map
   claimed    replies the read loop has matched, and so taken out of the map, but not yet sent on
   ch, err    everything ever sent on the two channels of a request
   returned   what sendRequest returned to its caller
   */
  datatype Client<C> = Client(
    nextId: nat,
    issued: map<nat, Question>,
    pending: set<nat>,
    claimed: map<nat, Reply<C>>,
    ch: map<nat, seq<C>>,
    err: map<nat, seq<Failure<C>>>,
    returned: map<nat, Outcome<C>>)

  function NewClient<C>(): Client<C> {
    Client(0, map[], {}, map[], map[], map[], map[])
  }

  // ---- Steps, each atomic under pendingMu or a single channel operation ----

  datatype Action<C> =
    | Register(question: Question)          // take an id and enter the pending map
    | FailWrite(id: nat)                    // writeRaw failed: leave the map and return
    | Claim(id: nat, reply: Reply<C>)       // dispatch found the id and removed it
    | Deliver(id: nat)                      // dispatch sends the claimed reply
    | RejectAll                             // the process exited
    | Replace                               // Restart installs a new map
    | GiveUp(id: nat, outcome: Outcome<C>)  // timer or context
    | Collect(id: nat)                      // the caller receives from a channel

  predicate Enabled<C>(c: Client<C>, a: Action<C>) {
    match a
    case Register(_) => true
    case FailWrite(id) => id in c.issued && id !in c.returned
    case Claim(id, _) => id in c.pending
    case Deliver(id) => id in c.claimed
    case RejectAll => true
    case Replace => true
    case GiveUp(id, o) => id in c.issued && id !in c.returned && (o == TimedOut || o == ContextEnded)
    case Collect(id) =>
      id in c.issued && id !in c.returned && id in c.ch && id in c.err && |c.ch[id]| + |c.err[id]| > 0
  }

  function Received<C>(c: Client<C>, id: nat): Outcome<C>
    requires id in c.ch && id in c.err && |c.ch[id]| + |c.err[id]| > 0
  {
    if |c.ch[id]| > 0 then Answered(c.ch[id][0])
    else
      match c.err[id][0]
      case RpcError(content) => AnsweredError(content)
      case ProcessExited => Exited
  }

  function Sent<C>(buffers: map<nat, seq<C>>, id: nat, x: C): map<nat, seq<C>> {
    buffers[id := (if id in buffers then buffers[id] else []) + [x]]
  }

  /** The error channels once the exit has been sent to the given requests. */
  function Rejected<C>(c: Client<C>, ids: set<nat>): map<nat, seq<Failure<C>>> {
    map id | id in c.err :: if id in ids then c.err[id] + [ProcessExited] else c.err[id]
  }

  function Next<C>(c: Client<C>, a: Action<C>): Client<C>
    requires Enabled(c, a)
  {
    match a
    case Register(q) =>
      var id := c.nextId + 1;
      c.(nextId := id, issued := c.issued[id := q], pending := c.pending + {id}, ch := c.ch[id := []], err := c.err[id := []])
    case FailWrite(id) => c.(pending := c.pending - {id}, returned := c.returned[id := WriteFailed])
    case Claim(id, reply) => c.(pending := c.pending - {id}, claimed := c.claimed[id := reply])
    case Deliver(id) =>
      var reply := c.claimed[id];
      if reply.isError then c.(claimed := c.claimed - {id}, err := Sent(c.err, id, RpcError(reply.content)))
      else c.(claimed := c.claimed - {id}, ch := Sent(c.ch, id, reply.content))
    case RejectAll => c.(pending := {}, err := Rejected(c, c.pending))
    case Replace => c.(pending := {})
    case GiveUp(id, o) => c.(pending := c.pending - {id}, returned := c.returned[id := o])
    case Collect(id) => c.(returned := c.returned[id := Received(c, id)])
  }

  // ---- The invariant ----

  function Sends<C>(c: Client<C>, id: nat): nat
    requires id in c.ch && id in c.err
  {
    |c.ch[id]| + |c.err[id]|
  }

  /** Each request is in one place: waiting in the map, claimed by the read loop, or sent to once. */
  ghost predicate Inv<C(!new)>(c: Client<C>) {
    && (forall id: nat :: id in c.issued <==> 1 <= id <= c.nextId)
    && c.ch.Keys == c.issued.Keys && c.err.Keys == c.issued.Keys
    && c.pending <= c.issued.Keys && c.claimed.Keys <= c.issued.Keys && c.returned.Keys <= c.issued.Keys
    && c.pending !! c.claimed.Keys
    && forall id | id in c.issued :: OnePlace(c, id)
  }

  predicate OnePlace<C>(c: Client<C>, id: nat) {
    id in c.ch && id in c.err
    && Sends(c, id) + (if id in c.pending then 1 else 0) + (if id in c.claimed then 1 else 0) <= 1
  }

  lemma RegisterKeepsInv<C(!new)>(c: Client<C>, q: Question)
    requires Inv(c)
    ensures Inv(Next(c, Register(q)))
  {
    var c', id := Next(c, Register(q)), c.nextId + 1;
    assert c'.issued.Keys == c.issued.Keys + {id};
    assert c'.ch.Keys == c.ch.Keys + {id} && c'.err.Keys == c.err.Keys + {id};
    assert OnePlace(c', id);
    forall i | i in c.issued ensures OnePlace(c', i) {
      assert OnePlace(c, i);
    }
  }

  lemma DeliverKeepsInv<C(!new)>(c: Client<C>, id: nat)
    requires Inv(c) && id in c.claimed
    ensures Inv(Next(c, Deliver(id)))
  {
    var c' := Next(c, Deliver(id));
    assert OnePlace(c, id);
    assert c'.ch.Keys == c.ch.Keys && c'.err.Keys == c.err.Keys;
    forall i | i in c'.issued ensures OnePlace(c', i) {
      assert OnePlace(c, i);
    }
  }

  lemma RejectKeepsInv<C(!new)>(c: Client<C>)
    requires Inv(c)
    ensures Inv(Next(c, RejectAll))
  {
    var c' := Next(c, RejectAll);
    assert c'.err.Keys == c.err.Keys;
    forall i | i in c'.issued ensures OnePlace(c', i) {
      assert OnePlace(c, i);
    }
  }

  lemma StepKeepsInv<C(!new)>(c: Client<C>, a: Action<C>)
    requires Inv(c) && Enabled(c, a)
    ensures Inv(Next(c, a))
  {
    match a
    case Register(q) => RegisterKeepsInv(c, q);
    case Deliver(id) => DeliverKeepsInv(c, id);
    case RejectAll => RejectKeepsInv(c);
    case _ =>
      var c' := Next(c, a);
      forall i | i in c'.issued ensures OnePlace(c', i) {
        assert OnePlace(c, i);
      }
  }

  predicate IsRun<C>(c: Client<C>, actions: seq<Action<C>>)
    decreases |actions|
  {
    actions == [] || (Enabled(c, actions[0]) && IsRun(Next(c, actions[0]), actions[1..]))
  }

  function Final<C>(c: Client<C>, actions: seq<Action<C>>): Client<C>
    requires IsRun(c, actions)
    decreases |actions|
  {
    if actions == [] then c else Final(Next(c, actions[0]), actions[1..])
  }

  lemma {:induction false} RunKeepsInv<C(!new)>(c: Client<C>, actions: seq<Action<C>>)
    requires Inv(c) && IsRun(c, actions)
    ensures Inv(Final(c, actions))
    decreases |actions|
  {
    hide Inv, Next;
    if actions != [] {
      StepKeepsInv(c, actions[0]);
      RunKeepsInv(Next(c, actions[0]), actions[1..]);
    }
  }

  /** In every interleaving of replies, exit, write failure, timeout and restart, each request
      receives at most one send across its two channels, and none while it is still pending or
      claimed: a send on a channel with room for one never blocks. */
  lemma AtMostOneDelivery<C(!new)>(actions: seq<Action<C>>, id: nat)
    requires IsRun(NewClient<C>(), actions)
    requires id in Final(NewClient<C>(), actions).issued
    ensures var c := Final(NewClient<C>(), actions);
            && id in c.ch && id in c.err && Sends(c, id) <= 1
            && (id in c.pending || id in c.claimed ==> Sends(c, id) == 0)
  {
    RunKeepsInv(NewClient<C>(), actions);
    assert OnePlace(Final(NewClient<C>(), actions), id);
  }

  lemma GoneStep<C(!new)>(c: Client<C>, a: Action<C>, id: nat)
    requires Inv(c) && Enabled(c, a) && id in c.issued
    ensures id in Next(c, a).issued && Next(c, a).issued[id] == c.issued[id]
    ensures id !in c.pending ==> id !in Next(c, a).pending
  {}

  /** Ids are never reused: one that has left the pending map never enters it again, so a late or
      repeated reply finds nothing. */
  lemma {:induction false} GoneStaysGone<C(!new)>(c: Client<C>, actions: seq<Action<C>>, id: nat)
    requires Inv(c) && IsRun(c, actions) && id in c.issued && id !in c.pending
    ensures var c' := Final(c, actions);
            id in c'.issued && c'.issued[id] == c.issued[id] && id !in c'.pending
    decreases |actions|
  {
    if actions != [] {
      StepKeepsInv(c, actions[0]);
      GoneStep(c, actions[0], id);
      hide Inv, Next;
      GoneStaysGone(Next(c, actions[0]), actions[1..], id);
    }
  }

  // ---- What replies carry ----

  /** Every reply held anywhere for a request, as a result or as an error, satisfies p at that
      request's id. */
  ghost predicate Carries<C(!new)>(c: Client<C>, p: (nat, Reply<C>) -> bool) {
    && (forall id | id in c.claimed :: p(id, c.claimed[id]))
    && (forall id, x | id in c.ch && x in c.ch[id] :: p(id, Reply(x, false)))
    && (forall id, x | id in c.err && x in c.err[id] && x.RpcError? :: p(id, Reply(x.content, true)))
    && (forall id | id in c.returned && c.returned[id].Answered? :: p(id, Reply(c.returned[id].content, false)))
    && (forall id | id in c.returned && c.returned[id].AnsweredError? :: p(id, Reply(c.returned[id].content, true)))
  }

  lemma DeliverCarries<C(!new)>(c: Client<C>, id: nat, p: (nat, Reply<C>) -> bool)
    requires Carries(c, p) && id in c.claimed
    ensures Carries(Next(c, Deliver(id)), p)
  {
    var c', reply := Next(c, Deliver(id)), c.claimed[id];
    assert reply == Reply(reply.content, reply.isError);
    forall i, x | i in c'.ch && x in c'.ch[i] ensures p(i, Reply(x, false)) {
      assert (i in c.ch && x in c.ch[i]) || (i == id && x == reply.content && !reply.isError);
    }
    forall i, x | i in c'.err && x in c'.err[i] && x.RpcError? ensures p(i, Reply(x.content, true)) {
      assert (i in c.err && x in c.err[i]) || (i == id && x == RpcError(reply.content) && reply.isError);
    }
  }

  lemma RejectCarries<C(!new)>(c: Client<C>, p: (nat, Reply<C>) -> bool)
    requires Carries(c, p)
    ensures Carries(Next(c, RejectAll), p)
  {
    var c' := Next(c, RejectAll);
    forall i, x | i in c'.err && x in c'.err[i] && x.RpcError? ensures p(i, Reply(x.content, true)) {
      assert i in c.err && x in c.err[i];
    }
  }

  lemma CollectCarries<C(!new)>(c: Client<C>, id: nat, p: (nat, Reply<C>) -> bool)
    requires Carries(c, p) && Enabled(c, Collect(id))
    ensures Carries(Next(c, Collect(id)), p)
  {
    assert |c.ch[id]| > 0 ==> c.ch[id][0] in c.ch[id];
    assert |c.err[id]| > 0 ==> c.err[id][0] in c.err[id];
  }

  lemma StepCarries<C(!new)>(c: Client<C>, a: Action<C>, p: (nat, Reply<C>) -> bool)
    requires Carries(c, p) && Enabled(c, a)
    requires a.Claim? ==> p(a.id, a.reply)
    ensures Carries(Next(c, a), p)
  {
    match a
    case Deliver(id) => DeliverCarries(c, id, p);
    case RejectAll => RejectCarries(c, p);
    case Collect(id) => CollectCarries(c, id, p);
    case _ =>
  }

  lemma CarriesWeaker<C(!new)>(c: Client<C>, p: (nat, Reply<C>) -> bool, q: (nat, Reply<C>) -> bool)
    requires Carries(c, p) && forall id, x | p(id, x) :: q(id, x)
    ensures Carries(c, q)
  {}

  // ---- What reaches the caller ----

  lemma ThreeActions<C(!new)>(c: Client<C>, a1: Action<C>, a2: Action<C>, a3: Action<C>)
    requires Enabled(c, a1) && Enabled(Next(c, a1), a2) && Enabled(Next(Next(c, a1), a2), a3)
    ensures IsRun(c, [a1, a2, a3]) && Final(c, [a1, a2, a3]) == Next(Next(Next(c, a1), a2), a3)
  {
    hide Enabled, Next;
    var c1, c2, c3 := Next(c, a1), Next(Next(c, a1), a2), Next(Next(Next(c, a1), a2), a3);
    assert [a1, a2, a3][1..] == [a2, a3] && [a2, a3][1..] == [a3] && [a3][1..] == [];
    assert IsRun(c3, []) && Final(c3, []) == c3;
    assert IsRun(c2, [a3]) && Final(c2, [a3]) == c3;
    assert IsRun(c1, [a2, a3]) && Final(c1, [a2, a3]) == c3;
  }

  /** A reply to a pending request, taken by the read loop and collected by the caller, is what the
      caller returns: a result as a result, an error as an error. */
  lemma ReplyReachesCaller<C(!new)>(c: Client<C>, id: nat, reply: Reply<C>)
    requires Inv(c) && id in c.pending && id !in c.returned
    ensures var run := [Claim(id, reply), Deliver(id), Collect(id)];
            IsRun(c, run) && var c' := Final(c, run);
            && id in c'.returned
            && c'.returned[id] == (if reply.isError then AnsweredError(reply.content) else Answered(reply.content))
            && c'.issued == c.issued && c'.nextId == c.nextId && c'.pending == c.pending - {id}
  {
    ClaimedIsUnsent(c, id);
    var c1 := Next(c, Claim(id, reply));
    SentToEmpty(c1.ch, id, reply.content);
    SentToEmpty(c1.err, id, RpcError(reply.content));
    hide Inv;
    ThreeActions(c, Claim(id, reply), Deliver(id), Collect(id));
  }

  /** When the process exits, every request still pending has the exit on its error channel, the
      other channels hold what they held, and a caller that collects it returns the exit. */
  lemma ExitReachesAll<C(!new)>(c: Client<C>, id: nat)
    requires Inv(c) && id in c.issued && id !in c.returned
    ensures var c' := Next(c, RejectAll);
            && c'.pending == {} && id in c'.err && id in c'.ch && c'.ch == c.ch
            && c'.err[id] == (if id in c.pending then [ProcessExited] else c.err[id])
            && (id in c.pending ==> Enabled(c', Collect(id)) && Next(c', Collect(id)).returned[id] == Exited)
  {
    if id in c.pending {
      ClaimedIsUnsent(c, id);
      assert c.err[id] + [ProcessExited] == [ProcessExited];
    }
  }

  /** A new request gets an id no request had before and is pending; one whose write fails, or that
      is given up, is no longer pending and returns that. */
  lemma RequestLifetime<C(!new)>(c: Client<C>, question: Question, o: Outcome<C>)
    requires Inv(c) && (o == TimedOut || o == ContextEnded)
    ensures var id, c1 := c.nextId + 1, Next(c, Register(question));
            && id !in c.issued && id in c1.pending && id in c1.issued && c1.issued[id] == question
            && Enabled(c1, FailWrite(id)) && Enabled(c1, GiveUp(id, o))
            && var failed, gaveUp := Next(c1, FailWrite(id)), Next(c1, GiveUp(id, o));
            && id !in failed.pending && failed.returned == c.returned[id := WriteFailed]
            && id !in gaveUp.pending && gaveUp.returned == c.returned[id := o]
  {}

  lemma ClaimedIsUnsent<C(!new)>(c: Client<C>, id: nat)
    requires Inv(c) && (id in c.claimed || id in c.pending)
    ensures id in c.ch && c.ch[id] == [] && id in c.err && c.err[id] == []
  {
    assert OnePlace(c, id);
  }

  lemma SentToEmpty<X>(buffers: map<nat, seq<X>>, id: nat, x: X)
    requires id in buffers && buffers[id] == []
    ensures Sent(buffers, id, x) == buffers[id := [x]]
  {
    assert buffers[id] + [x] == [x];
  }

  lemma RejectNone<C(!new)>(c: Client<C>)
    ensures Rejected(c, c.pending - c.pending) == c.err
  {}

  lemma RejectedIsNext<C(!new)>(c: Client<C>)
    ensures Next(c, RejectAll) == c.(pending := {}, err := Rejected(c, c.pending))
  {}

  lemma RejectOne<C(!new)>(c: Client<C>, done: set<nat>, id: nat)
    requires id in c.err && c.err[id] == [] && id !in done
    ensures Rejected(c, done)[id := [ProcessExited]] == Rejected(c, done + {id})
    ensures id in Rejected(c, done) && Rejected(c, done)[id] == []
  {
    assert c.err[id] + [ProcessExited] == [ProcessExited];
  }

  // ---- The client's fields ----

  class RpcClient<C(!new)> {
    var nextID: nat
    var pending: set<nat>
    ghost var claimed: map<nat, Reply<C>>
    var ch: map<nat, seq<C>>
    var err: map<nat, seq<Failure<C>>>
    ghost var issued: map<nat, Question>
    ghost var returned: map<nat, Outcome<C>>

    ghost function View(): Client<C>
      reads this
    {
      Client(nextID, issued, pending, claimed, ch, err, returned)
    }

    ghost predicate Valid()
      reads this
    {
      Inv(View())
    }

    constructor ()
      ensures Valid() && View() == NewClient<C>()
    {
      nextID, pending, claimed, ch, err := 0, {}, map[], map[], map[];
      issued, returned := map[], map[];
    }

    /** The first half of sendRequest. */
    method AddPending(question: Question) returns (id: nat)
      requires Valid()
      modifies this
      ensures Valid() && View() == Next(old(View()), Register(question)) && id == nextID
    {
      hide Inv;
      StepKeepsInv(View(), Register(question));
      nextID := nextID + 1;
      id := nextID;
      issued := issued[id := question];
      pending := pending + {id};
      ch, err := ch[id := []], err[id := []];
    }

    /** A send on a channel with room for one value: with a value already in it, it would block. */
    method SendResult(id: nat, content: C)
      requires id in ch && ch[id] == []
      modifies this`ch
      ensures ch == old(ch)[id := [content]]
    {
      assert ch[id] + [content] == [content];
      ch := ch[id := ch[id] + [content]];
    }

    method SendError(id: nat, failure: Failure<C>)
      requires id in err && err[id] == []
      modifies this`err
      ensures err == old(err)[id := [failure]]
    {
      assert err[id] + [failure] == [failure];
      err := err[id := err[id] + [failure]];
    }

    /** dispatch on a response: match it, then send outside the lock. A response that matches
        nothing changes nothing here. */
    method Dispatch(id: nat, reply: Reply<C>) returns (handled: bool)
      requires Valid()
      modifies this
      ensures Valid() && handled == (id in old(pending))
      ensures handled ==> View() == Next(Next(old(View()), Claim(id, reply)), Deliver(id))
      ensures !handled ==> View() == old(View())
    {
      hide Inv;
      handled := id in pending;
      if handled {
        ghost var claim := Next(View(), Claim(id, reply));
        StepKeepsInv(View(), Claim(id, reply));
        ClaimedIsUnsent(claim, id);
        StepKeepsInv(claim, Deliver(id));
        pending := pending - {id};
        claimed := claimed[id := reply];
        if reply.isError {
          SendError(id, RpcError(reply.content));
        } else {
          SendResult(id, reply.content);
        }
        claimed := claimed - {id};
        SentToEmpty(claim.ch, id, reply.content);
        SentToEmpty(claim.err, id, RpcError(reply.content));
      }
    }

    /** Every send of the loop finds its channel empty. */
    method RejectPending()
      requires Valid()
      modifies this
      ensures Valid() && View() == Next(old(View()), RejectAll)
    {
      hide Inv, Rejected, Next;
      ghost var c := View();
      StepKeepsInv(c, RejectAll);
      RejectNone(c);
      while pending != {}
        invariant pending <= c.pending
        invariant nextID == c.nextId && issued == c.issued && claimed == c.claimed && ch == c.ch && returned == c.returned
        invariant err == Rejected(c, c.pending - pending)
        decreases |pending|
      {
        var id :| id in pending;
        ClaimedIsUnsent(c, id);
        RejectOne(c, c.pending - pending, id);
        SendError(id, ProcessExited);
        assert c.pending - (pending - {id}) == (c.pending - pending) + {id};
        pending := pending - {id};
      }
      assert c.pending - {} == c.pending;
      RejectedIsNext(c);
    }

    /** The timer, the context or a failed write: the request leaves the map and the caller returns. */
    method RemovePending(id: nat, outcome: Outcome<C>)
      requires Valid() && id in issued && id !in returned
      requires outcome == TimedOut || outcome == ContextEnded || outcome == WriteFailed
      modifies this
      ensures Valid()
      ensures View() == Next(old(View()), if outcome == WriteFailed then FailWrite(id) else GiveUp(id, outcome))
    {
      hide Inv;
      StepKeepsInv(View(), if outcome == WriteFailed then FailWrite(id) else GiveUp(id, outcome));
      pending := pending - {id};
      returned := returned[id := outcome];
    }

    method ReplacePending()
      requires Valid()
      modifies this
      ensures Valid() && View() == Next(old(View()), Replace)
    {
      hide Inv;
      StepKeepsInv(View(), Replace);
      pending := {};
    }
  }
}
