/**
 The daemon broker of internal/lsp/daemon_broker.go as a step system: any number of daemon clients,
 each numbering its requests from 1, one connection handler per client, and one upstream client
 that renumbers everything onto the language server.
 */
module Broker {
  import opened Rpc

  datatype Body = Result(json: string) | ServerError(code: int, message: string)

  /** An answer of the server: the request it received, under the id it received it with. */
  datatype Answer = Answer(id: nat, question: Question, body: Body)

  /** A response on a daemon connection: the server's answer (an error keeps only its text), or the
      broker's own error after a timeout, a failed write or the server's exit. */
  datatype Relay = Relayed(answer: Answer) | BrokerError

  /** What a daemon connection carries to the broker. Echo is the null response the client sends to
      a reply it cannot match; the broker reads it as a request without a method. */
  datatype Inbound = Request(id: nat, question: Question) | Echo(id: nat)

  datatype Handler = Idle | Busy(id: nat, upstream: nat)

  datatype Conn = Conn(client: Client<Relay>, toBroker: seq<Inbound>, handler: Handler,
                       toClient: seq<(nat, Reply<Relay>)>, open: bool)

  /** requests: what the server has received; answers: everything it has ever sent; origin: the
      connection and id each forwarded request came from. */
  datatype System = System(upstream: Client<Answer>, requests: set<(nat, Question)>, answers: set<Answer>,
                           origin: map<nat, (nat, nat)>, conns: map<nat, Conn>)

  function Start(): System {
    System(NewClient<Answer>(), {}, {}, map[], map[])
  }

  const EMPTY_REQUEST := Question("", "null")

  datatype Step =
    | Connect(c: nat)
    | Disconnect(c: nat)
    | Daemon(c: nat, local: Action<Relay>)      // a step inside a daemon client
    | Transmit(c: nat, id: nat)                 // a registered request reaches the connection
    | HandlerRead(c: nat)                       // the handler reads a message and forwards it
    | Upstream(own: Action<Answer>)             // a step inside the upstream client
    | Forward(id: nat)                          // a registered request reaches the server
    | ServerAnswer(id: nat, question: Question, body: Body)
    | UpstreamDispatch(answer: Answer)          // the read loop takes an answer, perhaps late or again
    | HandlerFinish(c: nat)                     // sendRequest has returned; the handler responds
    | DaemonDispatch(c: nat)                    // the daemon client's read loop takes a response

  predicate Live(s: System, c: nat) {
    c in s.conns && s.conns[c].open
  }

  predicate Can(s: System, t: Step) {
    match t
    case Connect(c) => c !in s.conns
    case Disconnect(c) => Live(s, c)
    case Daemon(c, a) => c in s.conns && !a.Claim? && Enabled(s.conns[c].client, a)
    case Transmit(c, id) => Live(s, c) && id in s.conns[c].client.issued
    case HandlerRead(c) => Live(s, c) && s.conns[c].handler == Idle && s.conns[c].toBroker != []
    case Upstream(a) => !a.Claim? && Enabled(s.upstream, a)
    case Forward(id) => id in s.upstream.issued
    case ServerAnswer(id, q, _) => (id, q) in s.requests
    case UpstreamDispatch(ans) => ans in s.answers
    case HandlerFinish(c) =>
      c in s.conns && s.conns[c].handler.Busy? && s.conns[c].handler.upstream in s.upstream.returned
    case DaemonDispatch(c) => Live(s, c) && s.conns[c].toClient != []
  }

  function Response(o: Outcome<Answer>): Reply<Relay> {
    match o
    case Answered(ans) => Reply(Relayed(ans), false)
    case AnsweredError(ans) => Reply(Relayed(ans), true)
    case _ => Reply(BrokerError, true)
  }

  function AskedBy(m: Inbound): Question {
    match m
    case Request(_, q) => q
    case Echo(_) => EMPTY_REQUEST
  }

  function After(s: System, t: Step): System
    requires Can(s, t)
  {
    match t
    case Connect(c) => s.(conns := s.conns[c := Conn(NewClient<Relay>(), [], Idle, [], true)])
    case Disconnect(c) => WithConn(s, c, s.conns[c].(open := false, toBroker := [], toClient := []))
    case Daemon(c, a) => WithConn(s, c, s.conns[c].(client := Next(s.conns[c].client, a)))
    case Transmit(c, id) =>
      var k := s.conns[c];
      WithConn(s, c, k.(toBroker := k.toBroker + [Request(id, k.client.issued[id])]))
    case HandlerRead(c) =>
      var k := s.conns[c];
      var m, up := k.toBroker[0], s.upstream.nextId + 1;
      WithConn(s, c, k.(toBroker := k.toBroker[1..], handler := Busy(m.id, up)))
        .(upstream := Next(s.upstream, Register(AskedBy(m))), origin := s.origin[up := (c, m.id)])
    case Upstream(a) => s.(upstream := Next(s.upstream, a))
    case Forward(id) => s.(requests := s.requests + {(id, s.upstream.issued[id])})
    case ServerAnswer(id, q, body) => s.(answers := s.answers + {Answer(id, q, body)})
    case UpstreamDispatch(ans) =>
      if ans.id in s.upstream.pending
      then s.(upstream := Next(s.upstream, Claim(ans.id, Reply(ans, ans.body.ServerError?))))
      else s
    case HandlerFinish(c) =>
      var k := s.conns[c];
      var response := (k.handler.id, Response(s.upstream.returned[k.handler.upstream]));
      WithConn(s, c, k.(handler := Idle, toClient := if k.open then k.toClient + [response] else []))
    case DaemonDispatch(c) =>
      var k := s.conns[c];
      var (id, reply) := k.toClient[0];
      if id in k.client.pending
      then WithConn(s, c, k.(toClient := k.toClient[1..], client := Next(k.client, Claim(id, reply))))
      else WithConn(s, c, k.(toClient := k.toClient[1..], toBroker := k.toBroker + [Echo(id)]))
  }

  function WithConn(s: System, c: nat, k: Conn): System {
    s.(conns := s.conns[c := k])
  }

  predicate IsRun(s: System, steps: seq<Step>)
    decreases |steps|
  {
    steps == [] || (Can(s, steps[0]) && IsRun(After(s, steps[0]), steps[1..]))
  }

  function Final(s: System, steps: seq<Step>): System
    requires IsRun(s, steps)
    decreases |steps|
  {
    if steps == [] then s else Final(After(s, steps[0]), steps[1..])
  }

  // ---- The invariant ----

  /** ans is an answer the server gave to the very request that connection c forwarded for its id. */
  predicate Proper(s: System, c: nat, id: nat, q: Question, ans: Answer) {
    && ans in s.answers && ans.question == q
    && ans.id in s.origin && s.origin[ans.id] == (c, id)
  }

  /** A request that connection c forwarded for its id ended upstream without an answer. */
  predicate Unanswered(s: System, c: nat, id: nat) {
    exists up | up in s.origin && up in s.upstream.returned ::
      s.origin[up] == (c, id) && !s.upstream.returned[up].Answered? && !s.upstream.returned[up].AnsweredError?
  }

  /** What may be handed to the caller of (c, id): the server's result as a result, its error as an
      error, or the broker's own error when there was no answer. */
  predicate Fits(s: System, c: nat, client: Client<Relay>, id: nat, r: Reply<Relay>) {
    id in client.issued &&
    match r.content
    case Relayed(ans) => Proper(s, c, id, client.issued[id], ans) && (r.isError <==> ans.body.ServerError?)
    case BrokerError => r.isError && Unanswered(s, c, id)
  }

  ghost function FitsIn(s: System, c: nat, client: Client<Relay>): (nat, Reply<Relay>) -> bool {
    (id: nat, r: Reply<Relay>) => Fits(s, c, client, id, r)
  }

  ghost function AnswersIn(s: System): (nat, Reply<Answer>) -> bool {
    (id: nat, r: Reply<Answer>) =>
      r.content in s.answers && r.content.id == id && (r.isError <==> r.content.body.ServerError?)
  }

  predicate Gone(client: Client<Relay>, id: nat) {
    id in client.issued && id !in client.pending
  }

  predicate InboundOk(client: Client<Relay>, m: Inbound) {
    match m
    case Request(id, q) => id in client.issued && client.issued[id] == q
    case Echo(id) => Gone(client, id)
  }

  predicate HandlerOk(s: System, c: nat, k: Conn) {
    k.handler.Busy? ==>
      var id, up := k.handler.id, k.handler.upstream;
      && id in k.client.issued && up in s.upstream.issued && up in s.origin && s.origin[up] == (c, id)
      && (s.upstream.issued[up] == k.client.issued[id] || Gone(k.client, id))
  }

  predicate OutboundOk(s: System, c: nat, k: Conn, m: (nat, Reply<Relay>)) {
    Gone(k.client, m.0) || Fits(s, c, k.client, m.0, m.1)
  }

  predicate QueuesOk(s: System, c: nat, k: Conn) {
    && (forall i | 0 <= i < |k.toBroker| :: InboundOk(k.client, k.toBroker[i]))
    && (forall i | 0 <= i < |k.toClient| :: OutboundOk(s, c, k, k.toClient[i]))
  }

  ghost predicate ConnOk(s: System, c: nat, k: Conn) {
    && Inv(k.client)
    && Carries(k.client, FitsIn(s, c, k.client))
    && QueuesOk(s, c, k) && HandlerOk(s, c, k)
  }

  ghost predicate UpstreamOk(s: System) {
    && Inv(s.upstream)
    && s.origin.Keys <= s.upstream.issued.Keys
    && (forall r | r in s.requests :: r.0 in s.upstream.issued && s.upstream.issued[r.0] == r.1)
    && (forall ans | ans in s.answers :: ans.id in s.upstream.issued && s.upstream.issued[ans.id] == ans.question)
    && Carries(s.upstream, AnswersIn(s))
  }

  ghost predicate SystemOk(s: System) {
    UpstreamOk(s) && forall c | c in s.conns :: ConnOk(s, c, s.conns[c])
  }

  /** s' knows at least what s knows. */
  predicate Extends(s: System, s': System) {
    && s.answers <= s'.answers
    && (forall up | up in s.origin :: up in s'.origin && s'.origin[up] == s.origin[up])
    && (forall up | up in s.upstream.issued :: up in s'.upstream.issued && s'.upstream.issued[up] == s.upstream.issued[up])
    && (forall up | up in s.upstream.returned ::
          up in s'.upstream.returned && s'.upstream.returned[up] == s.upstream.returned[up])
  }

  lemma FitStays(s: System, s': System, c: nat, client: Client<Relay>, id: nat, r: Reply<Relay>)
    requires Extends(s, s') && Fits(s, c, client, id, r)
    ensures Fits(s', c, client, id, r)
  {}

  lemma FitsStays(s: System, s': System, c: nat, client: Client<Relay>)
    requires Extends(s, s') && Carries(client, FitsIn(s, c, client))
    ensures Carries(client, FitsIn(s', c, client))
  {
    forall id: nat, r: Reply<Relay> | FitsIn(s, c, client)(id, r) ensures FitsIn(s', c, client)(id, r) {
      FitStays(s, s', c, client, id, r);
    }
    CarriesWeaker(client, FitsIn(s, c, client), FitsIn(s', c, client));
  }

  lemma ConnStaysOk(s: System, s': System, c: nat, k: Conn)
    requires ConnOk(s, c, k) && Extends(s, s')
    ensures ConnOk(s', c, k)
  {
    FitsStays(s, s', c, k.client);
    hide Inv, Carries, FitsIn, InboundOk, Fits;
    forall i | 0 <= i < |k.toClient| ensures OutboundOk(s', c, k, k.toClient[i]) {
      assert OutboundOk(s, c, k, k.toClient[i]);
      if Fits(s, c, k.client, k.toClient[i].0, k.toClient[i].1) {
        FitStays(s, s', c, k.client, k.toClient[i].0, k.toClient[i].1);
      }
    }
  }

  /** A step of one connection needs only that connection checked again. */
  lemma OneConnChanges(s: System, c: nat, k: Conn)
    requires SystemOk(s) && ConnOk(s, c, k)
    ensures SystemOk(WithConn(s, c, k))
  {
    hide Inv, Carries, InboundOk, HandlerOk, OutboundOk;
    var s' := WithConn(s, c, k);
    UpstreamUntouched(s, s');
    ConnStaysOk(s, s', c, k);
    forall d | d in s'.conns ensures ConnOk(s', d, s'.conns[d]) {
      if d != c {
        ConnStaysOk(s, s', d, s.conns[d]);
      }
    }
  }

  lemma UpstreamUntouched(s: System, s': System)
    requires UpstreamOk(s) && s' == s.(conns := s'.conns)
    ensures UpstreamOk(s')
  {
    hide Inv, Carries;
    CarriesWeaker(s.upstream, AnswersIn(s), AnswersIn(s'));
  }

  lemma UpstreamChanges(s: System, s': System)
    requires SystemOk(s) && UpstreamOk(s') && Extends(s, s') && s'.conns == s.conns
    ensures SystemOk(s')
  {
    hide UpstreamOk, Extends;
    forall c | c in s'.conns ensures ConnOk(s', c, s'.conns[c]) {
      ConnStaysOk(s, s', c, s.conns[c]);
    }
  }

  // ---- Steps of a daemon client ----

  lemma ClientCarries(s: System, c: nat, client: Client<Relay>, a: Action<Relay>)
    requires Inv(client) && Carries(client, FitsIn(s, c, client)) && Enabled(client, a)
    requires a.Claim? ==> Fits(s, c, client, a.id, a.reply)
    ensures Carries(Next(client, a), FitsIn(s, c, Next(client, a)))
  {
    var client' := Next(client, a);
    StepCarries(client, a, FitsIn(s, c, client));
    IssuedGrows(client, a);
    hide Inv, Carries, Next;
    forall id: nat, r: Reply<Relay> | FitsIn(s, c, client)(id, r) ensures FitsIn(s, c, client')(id, r) {
      assert Fits(s, c, client', id, r);
    }
    CarriesWeaker(client', FitsIn(s, c, client), FitsIn(s, c, client'));
  }

  lemma ClientStep(s: System, c: nat, k: Conn, a: Action<Relay>)
    requires ConnOk(s, c, k) && Enabled(k.client, a)
    requires a.Claim? ==> Fits(s, c, k.client, a.id, a.reply)
    ensures ConnOk(s, c, k.(client := Next(k.client, a)))
  {
    hide Carries, Next, FitsIn, Proper;
    var k' := k.(client := Next(k.client, a));
    StepKeepsInv(k.client, a);
    ClientCarries(s, c, k.client, a);
    IssuedGrows(k.client, a);
    forall i | 0 <= i < |k.toBroker| ensures InboundOk(k'.client, k.toBroker[i]) {
      assert InboundOk(k.client, k.toBroker[i]);
    }
    forall i | 0 <= i < |k.toClient| ensures OutboundOk(s, c, k', k.toClient[i]) {
      assert OutboundOk(s, c, k, k.toClient[i]);
    }
  }

  lemma IssuedGrows<C(!new)>(client: Client<C>, a: Action<C>)
    requires Inv(client) && Enabled(client, a)
    ensures forall id | id in client.issued ::
              id in Next(client, a).issued && Next(client, a).issued[id] == client.issued[id]
    ensures forall id | id in client.issued && id !in client.pending :: id !in Next(client, a).pending
    ensures forall id | id in client.returned :: id in Next(client, a).returned && Next(client, a).returned[id] == client.returned[id]
  {
    forall id | id in client.issued
      ensures id in Next(client, a).issued && Next(client, a).issued[id] == client.issued[id]
      ensures id !in client.pending ==> id !in Next(client, a).pending
    {
      GoneStep(client, a, id);
    }
  }

  lemma DaemonDispatchOk(s: System, c: nat)
    requires SystemOk(s) && Can(s, DaemonDispatch(c))
    ensures SystemOk(After(s, DaemonDispatch(c)))
  {
    hide Inv, Carries, Next, Proper, HandlerOk;
    var k := s.conns[c];
    var (id, reply) := k.toClient[0];
    assert OutboundOk(s, c, k, k.toClient[0]);
    var popped := k.(toClient := k.toClient[1..]);
    SameClient(s, c, k, popped);
    if id in k.client.pending {
      ClientStep(s, c, popped, Claim(id, reply));
      OneConnChanges(s, c, popped.(client := Next(k.client, Claim(id, reply))));
    } else {
      assert InboundOk(k.client, Echo(id));
      var echoed := popped.(toBroker := popped.toBroker + [Echo(id)]);
      SameClient(s, c, popped, echoed);
      OneConnChanges(s, c, echoed);
    }
  }

  /** Queues and handler may change freely as long as what they hold is in order. */
  lemma SameClient(s: System, c: nat, k: Conn, k': Conn)
    requires ConnOk(s, c, k) && k'.client == k.client
    requires QueuesOk(s, c, k') && (k'.handler == k.handler || HandlerOk(s, c, k'))
    ensures ConnOk(s, c, k')
  {
    hide Inv, Carries, Fits, FitsIn, QueuesOk;
  }

  // ---- Steps of the handler ----

  lemma HandlerReadOk(s: System, c: nat)
    requires SystemOk(s) && Can(s, HandlerRead(c))
    ensures SystemOk(After(s, HandlerRead(c)))
  {
    hide Inv, Carries, Next, UpstreamOk, Fits, FitsIn;
    var k := s.conns[c];
    var m, up := k.toBroker[0], s.upstream.nextId + 1;
    var s1 := s.(upstream := Next(s.upstream, Register(AskedBy(m))), origin := s.origin[up := (c, m.id)]);
    RegisterUpstreamOk(s, AskedBy(m), (c, m.id));
    UpstreamChanges(s, s1);
    HandlerTakes(s1, c, k, m, up);
    var k' := k.(toBroker := k.toBroker[1..], handler := Busy(m.id, up));
    OneConnChanges(s1, c, k');
    assert After(s, HandlerRead(c)) == WithConn(s1, c, k');
  }

  lemma HandlerTakes(s: System, c: nat, k: Conn, m: Inbound, up: nat)
    requires ConnOk(s, c, k) && k.toBroker != [] && m == k.toBroker[0]
    requires up in s.upstream.issued && s.upstream.issued[up] == AskedBy(m)
    requires up in s.origin && s.origin[up] == (c, m.id)
    ensures ConnOk(s, c, k.(toBroker := k.toBroker[1..], handler := Busy(m.id, up)))
  {
    hide Inv, Carries, Fits, FitsIn;
    assert InboundOk(k.client, k.toBroker[0]);
    SameClient(s, c, k, k.(toBroker := k.toBroker[1..], handler := Busy(m.id, up)));
  }

  lemma RegisterFacts<C(!new)>(client: Client<C>, q: Question)
    requires Inv(client)
    ensures client.nextId + 1 !in client.issued && client.nextId + 1 !in client.returned
    ensures Next(client, Register(q)).issued == client.issued[client.nextId + 1 := q]
  {}

  lemma RegisterUpstreamOk(s: System, q: Question, from: (nat, nat))
    requires UpstreamOk(s)
    ensures var up := s.upstream.nextId + 1;
            var s1 := s.(upstream := Next(s.upstream, Register(q)), origin := s.origin[up := from]);
            UpstreamOk(s1) && Extends(s, s1) && up in s1.upstream.issued && s1.upstream.issued[up] == q
  {
    var s0 := s.(upstream := Next(s.upstream, Register(q)));
    var up := s.upstream.nextId + 1;
    UpstreamStep(s, Register(q));
    RegisterFacts(s.upstream, q);
    assert up !in s.origin && up in s0.upstream.issued && s0.upstream.issued[up] == q;
    hide Inv, Carries, Next, UpstreamOk, Extends;
    OriginAdded(s0, up, from);
    ExtendsOrigin(s, s0, up, from);
  }

  lemma ExtendsOrigin(s: System, s0: System, up: nat, from: (nat, nat))
    requires Extends(s, s0) && up !in s.origin
    ensures Extends(s, s0.(origin := s0.origin[up := from]))
  {}

  lemma OriginAdded(s: System, up: nat, from: (nat, nat))
    requires UpstreamOk(s) && up in s.upstream.issued
    ensures UpstreamOk(s.(origin := s.origin[up := from]))
  {
    hide Inv, Carries;
    var s' := s.(origin := s.origin[up := from]);
    SameAnswers(s.upstream, s, s');
  }

  lemma SameAnswers(client: Client<Answer>, s: System, s': System)
    requires Carries(client, AnswersIn(s)) && s.answers <= s'.answers
    ensures Carries(client, AnswersIn(s'))
  {
    CarriesWeaker(client, AnswersIn(s), AnswersIn(s'));
  }

  lemma HandlerFinishOk(s: System, c: nat)
    requires SystemOk(s) && Can(s, HandlerFinish(c))
    ensures SystemOk(After(s, HandlerFinish(c)))
  {
    hide Inv, Carries, FitsIn, AnswersIn;
    var k := s.conns[c];
    var id, up := k.handler.id, k.handler.upstream;
    var response := (id, Response(s.upstream.returned[up]));
    ReturnedIsAnswer(s, up);
    ResponseOk(s, c, k);
    var k' := k.(handler := Idle, toClient := if k.open then k.toClient + [response] else []);
    SameClient(s, c, k, k');
    OneConnChanges(s, c, k');
  }

  lemma ResponseOk(s: System, c: nat, k: Conn)
    requires UpstreamOk(s) && HandlerOk(s, c, k) && k.handler.Busy? && k.handler.upstream in s.upstream.returned
    ensures OutboundOk(s, c, k, (k.handler.id, Response(s.upstream.returned[k.handler.upstream])))
  {
    ReturnedIsAnswer(s, k.handler.upstream);
    hide Inv, Carries, AnswersIn;
  }

  lemma ReturnedIsAnswer(s: System, up: nat)
    requires UpstreamOk(s) && up in s.upstream.returned
    ensures var o := s.upstream.returned[up];
            && (o.Answered? ==> o.content in s.answers && o.content.id == up && o.content.body.Result?)
            && (o.AnsweredError? ==> o.content in s.answers && o.content.id == up && o.content.body.ServerError?)
  {}

  // ---- Steps of the upstream client and the server ----

  lemma UpstreamStep(s: System, a: Action<Answer>)
    requires UpstreamOk(s) && Enabled(s.upstream, a)
    requires a.Claim? ==> AnswersIn(s)(a.id, a.reply)
    ensures var s' := s.(upstream := Next(s.upstream, a));
            UpstreamOk(s') && Extends(s, s')
  {
    hide Carries, Next, AnswersIn, Enabled;
    StepKeepsInv(s.upstream, a);
    UpstreamCarries(s, a);
    IssuedGrows(s.upstream, a);
    hide Inv;
    UpstreamGrows(s, Next(s.upstream, a));
  }

  lemma UpstreamCarries(s: System, a: Action<Answer>)
    requires Carries(s.upstream, AnswersIn(s)) && Enabled(s.upstream, a)
    requires a.Claim? ==> AnswersIn(s)(a.id, a.reply)
    ensures Carries(Next(s.upstream, a), AnswersIn(s))
  {
    hide Carries, Next;
    StepCarries(s.upstream, a, AnswersIn(s));
  }

  lemma UpstreamGrows(s: System, client: Client<Answer>)
    requires UpstreamOk(s) && Inv(client) && Carries(client, AnswersIn(s))
    requires forall id | id in s.upstream.issued :: id in client.issued && client.issued[id] == s.upstream.issued[id]
    requires forall id | id in s.upstream.returned :: id in client.returned && client.returned[id] == s.upstream.returned[id]
    ensures UpstreamOk(s.(upstream := client)) && Extends(s, s.(upstream := client))
  {
    hide Carries, Inv;
    SameAnswers(client, s, s.(upstream := client));
    hide AnswersIn;
    assert s.upstream.issued.Keys <= client.issued.Keys;
  }

  lemma ServerOk(s: System, t: Step)
    requires SystemOk(s) && Can(s, t) && (t.Forward? || t.ServerAnswer?)
    ensures SystemOk(After(s, t))
  {
    hide Inv, Carries, ConnOk;
    var s' := After(s, t);
    CarriesWeaker(s.upstream, AnswersIn(s), AnswersIn(s'));
    UpstreamChanges(s, s');
  }

  lemma QueueStepOk(s: System, t: Step)
    requires SystemOk(s) && Can(s, t) && (t.Disconnect? || t.Transmit?)
    ensures SystemOk(After(s, t))
  {
    hide Inv, Carries, Fits;
    var k, k' := s.conns[t.c], After(s, t).conns[t.c];
    SameClient(s, t.c, k, k');
    OneConnChanges(s, t.c, k');
  }

  lemma NewConnOk(s: System, c: nat)
    ensures ConnOk(s, c, Conn(NewClient<Relay>(), [], Idle, [], true))
  {}

  lemma StepOk(s: System, t: Step)
    requires SystemOk(s) && Can(s, t)
    ensures SystemOk(After(s, t))
  {
    hide Next, InboundOk, OutboundOk, HandlerOk, Proper;
    match t
    case Connect(c) =>
      NewConnOk(s, c);
      OneConnChanges(s, c, Conn(NewClient<Relay>(), [], Idle, [], true));
    case Disconnect(_) => QueueStepOk(s, t);
    case Transmit(_, _) => QueueStepOk(s, t);
    case Daemon(c, a) =>
      ClientStep(s, c, s.conns[c], a);
      OneConnChanges(s, c, s.conns[c].(client := Next(s.conns[c].client, a)));
    case HandlerRead(c) => HandlerReadOk(s, c);
    case Upstream(a) =>
      UpstreamStep(s, a);
      UpstreamChanges(s, After(s, t));
    case Forward(_) => ServerOk(s, t);
    case ServerAnswer(_, _, _) => ServerOk(s, t);
    case UpstreamDispatch(ans) =>
      if ans.id in s.upstream.pending {
        UpstreamStep(s, Claim(ans.id, Reply(ans, ans.body.ServerError?)));
        UpstreamChanges(s, After(s, t));
      }
    case HandlerFinish(c) => HandlerFinishOk(s, c);
    case DaemonDispatch(c) => DaemonDispatchOk(s, c);
  }

  lemma {:induction false} RunOk(s: System, steps: seq<Step>)
    requires SystemOk(s) && IsRun(s, steps)
    ensures SystemOk(Final(s, steps))
    decreases |steps|
  {
    hide SystemOk, Can, After;
    if steps != [] {
      StepOk(s, steps[0]);
      RunOk(After(s, steps[0]), steps[1..]);
    }
  }

  /** End-to-end correlation: with any number of daemon clients, in every interleaving of requests,
      replies, timeouts, restarts, disconnects and late or repeated replies, a caller that receives a
      result receives a result the server gave to its own method and params, for the request its own
      connection forwarded for its own id; likewise an error; and a broker error only when such a
      request ended without an answer. */
  lemma AnswersReachTheirCaller(steps: seq<Step>, c: nat, id: nat)
    requires IsRun(Start(), steps) && c in Final(Start(), steps).conns
    requires id in Final(Start(), steps).conns[c].client.returned
    ensures var s := Final(Start(), steps);
            var client := s.conns[c].client;
            id in client.issued &&
            match client.returned[id]
            case Answered(r) => r.Relayed? && r.answer.body.Result? && Proper(s, c, id, client.issued[id], r.answer)
            case AnsweredError(Relayed(ans)) => ans.body.ServerError? && Proper(s, c, id, client.issued[id], ans)
            case AnsweredError(BrokerError) => Unanswered(s, c, id)
            case _ => true
  {
    hide SystemOk, IsRun, Final, Proper, Unanswered;
    StartIsOk();
    RunOk(Start(), steps);
    ReturnedFits(Final(Start(), steps), c, id);
  }

  lemma StartIsOk()
    ensures SystemOk(Start())
  {
    NewClientIsOk();
  }

  lemma ReturnedFits(s: System, c: nat, id: nat)
    requires SystemOk(s) && c in s.conns && id in s.conns[c].client.returned
    ensures var client := s.conns[c].client;
            id in client.issued &&
            match client.returned[id]
            case Answered(r) => Fits(s, c, client, id, Reply(r, false))
            case AnsweredError(r) => Fits(s, c, client, id, Reply(r, true))
            case _ => true
  {
    hide UpstreamOk, QueuesOk, HandlerOk, Fits;
    assert ConnOk(s, c, s.conns[c]);
  }

  lemma NewClientIsOk()
    ensures UpstreamOk(Start())
  {}

  // ---- An undisturbed exchange ----

  predicate Leads(s: System, steps: seq<Step>, s': System) {
    IsRun(s, steps) && Final(s, steps) == s'
  }

  lemma {:induction false} LeadsOn(s: System, a: seq<Step>, s1: System, b: seq<Step>, s2: System)
    requires Leads(s, a, s1) && Leads(s1, b, s2)
    ensures Leads(s, a + b, s2)
    decreases |a|
  {
    hide Can, After;
    if a == [] {
      assert a + b == b;
    } else {
      assert (a + b)[1..] == a[1..] + b;
      LeadsOn(After(s, a[0]), a[1..], s1, b, s2);
    }
  }

  lemma LeadsToOk(s: System, steps: seq<Step>, s': System)
    requires SystemOk(s) && Leads(s, steps, s')
    ensures SystemOk(s')
  {
    hide SystemOk, IsRun, Final;
    RunOk(s, steps);
  }

  predicate Quiet(k: Conn) {
    k.open && k.handler == Idle && k.toBroker == [] && k.toClient == []
  }

  lemma AskStep(s: System, c: nat, q: Question)
    requires Live(s, c) && Inv(s.conns[c].client)
    ensures var k, id := s.conns[c], s.conns[c].client.nextId + 1;
            && id !in k.client.returned && Can(s, Daemon(c, Register(q)))
            && var s' := After(s, Daemon(c, Register(q)));
            && Live(s', c) && s'.conns[c] == k.(client := Next(k.client, Register(q))) && s'.upstream == s.upstream
            && id in Next(k.client, Register(q)).issued && Next(k.client, Register(q)).issued[id] == q
            && id in Next(k.client, Register(q)).pending
  {
    RegisterFacts(s.conns[c].client, q);
  }

  lemma TransmitStep(s: System, c: nat, id: nat)
    requires Live(s, c) && id in s.conns[c].client.issued
    ensures Can(s, Transmit(c, id))
    ensures var k, s' := s.conns[c], After(s, Transmit(c, id));
            && Live(s', c) && s'.upstream == s.upstream
            && s'.conns[c] == k.(toBroker := k.toBroker + [Request(id, k.client.issued[id])])
  {}

  lemma ReadStep(s: System, c: nat, id: nat, q: Question)
    requires Live(s, c) && s.conns[c].handler == Idle && s.conns[c].toBroker == [Request(id, q)] && Inv(s.upstream)
    ensures Can(s, HandlerRead(c))
    ensures var s', up := After(s, HandlerRead(c)), s.upstream.nextId + 1;
            && s'.upstream == Next(s.upstream, Register(q)) && Live(s', c)
            && s'.conns[c] == s.conns[c].(toBroker := [], handler := Busy(id, up))
            && up in s'.upstream.issued && s'.upstream.issued[up] == q
            && up in s'.upstream.pending && up !in s'.upstream.returned
  {
    RegisterFacts(s.upstream, q);
    assert [Request(id, q)][1..] == [];
  }

  lemma ForwardStep(s: System, up: nat)
    requires up in s.upstream.issued
    ensures Can(s, Forward(up))
    ensures var s' := After(s, Forward(up));
            s'.upstream == s.upstream && s'.conns == s.conns && (up, s.upstream.issued[up]) in s'.requests
  {}

  lemma TwoSteps(s: System, t1: Step, s1: System, t2: Step, s2: System)
    requires Can(s, t1) && s1 == After(s, t1) && Can(s1, t2) && s2 == After(s1, t2)
    ensures Leads(s, [t1, t2], s2)
  {
    hide Can, After;
    assert [t1, t2][1..] == [t2] && [t2][1..] == [];
    assert IsRun(s2, []) && Final(s2, []) == s2;
    assert IsRun(s1, [t2]) && Final(s1, [t2]) == s2;
  }

  /** The stages of an exchange: the request is with the broker, with the server, answered upstream,
      and answered to its caller. */
  predicate AtBroker(s: System, c: nat, id: nat, q: Question) {
    && Live(s, c) && s.conns[c].handler == Idle && s.conns[c].toBroker == [Request(id, q)] && s.conns[c].toClient == []
    && id in s.conns[c].client.pending && id !in s.conns[c].client.returned
  }

  predicate AtServer(s: System, c: nat, id: nat, up: nat, q: Question) {
    && Live(s, c) && s.conns[c].handler == Busy(id, up) && s.conns[c].toClient == []
    && id in s.conns[c].client.pending && id !in s.conns[c].client.returned
    && (up, q) in s.requests && up in s.upstream.pending && up !in s.upstream.returned
  }

  predicate BackAtBroker(s: System, c: nat, id: nat, ans: Answer) {
    && Live(s, c) && s.conns[c].handler == Busy(id, ans.id) && s.conns[c].toClient == []
    && id in s.conns[c].client.pending && id !in s.conns[c].client.returned && ans.id in s.upstream.returned
    && s.upstream.returned[ans.id] == (if ans.body.ServerError? then AnsweredError(ans) else Answered(ans))
  }

  predicate Settled(s: System, c: nat, id: nat, ans: Answer) {
    && c in s.conns && id in s.conns[c].client.returned
    && s.conns[c].client.returned[id]
       == if ans.body.ServerError? then AnsweredError(Relayed(ans)) else Answered(Relayed(ans))
  }

  function Asking(c: nat, id: nat, q: Question): seq<Step> {
    [Daemon(c, Register(q)), Transmit(c, id)]
  }

  function Forwarding(c: nat, up: nat): seq<Step> {
    [HandlerRead(c), Forward(up)]
  }

  function Answering(ans: Answer): seq<Step> {
    [ServerAnswer(ans.id, ans.question, ans.body), UpstreamDispatch(ans)]
    + [Upstream(Deliver(ans.id)), Upstream(Collect(ans.id))]
  }

  function Returning(c: nat, id: nat): seq<Step> {
    [HandlerFinish(c), DaemonDispatch(c)] + [Daemon(c, Deliver(id)), Daemon(c, Collect(id))]
  }

  /** From the caller's request until the broker has it. */
  lemma RequestIsSent(s: System, c: nat, q: Question) returns (s': System)
    requires SystemOk(s) && c in s.conns && Quiet(s.conns[c])
    ensures var id := s.conns[c].client.nextId + 1;
            Leads(s, Asking(c, id, q), s') && AtBroker(s', c, id, q) && s'.upstream == s.upstream
  {
    var id := s.conns[c].client.nextId + 1;
    ConnInv(s, c);
    RegisterReturnsNothing(s.conns[c].client, q);
    hide SystemOk, Inv, After, Can, IsRun, Final, Next;
    AskStep(s, c, q);
    var s1 := After(s, Daemon(c, Register(q)));
    TransmitStep(s1, c, id);
    s' := After(s1, Transmit(c, id));
    assert [] + [Request(id, q)] == [Request(id, q)];
    TwoSteps(s, Daemon(c, Register(q)), s1, Transmit(c, id), s');
  }

  /** From there until the server has it. */
  lemma RequestIsForwarded(s: System, c: nat, id: nat, q: Question) returns (s': System)
    requires SystemOk(s) && AtBroker(s, c, id, q)
    ensures var up := s.upstream.nextId + 1;
            Leads(s, Forwarding(c, up), s') && AtServer(s', c, id, up, q)
  {
    var up := s.upstream.nextId + 1;
    UpstreamInv(s);
    hide SystemOk, Inv, After, Can, IsRun, Final, Next;
    ReadStep(s, c, id, q);
    var s1 := After(s, HandlerRead(c));
    ForwardStep(s1, up);
    s' := After(s1, Forward(up));
    TwoSteps(s, HandlerRead(c), s1, Forward(up), s');
  }

  lemma UpstreamInv(s: System)
    requires SystemOk(s)
    ensures Inv(s.upstream)
  {
    hide Inv, Carries, ConnOk;
  }

  lemma AnswerStep(s: System, up: nat, q: Question, body: Body)
    requires (up, q) in s.requests
    ensures Can(s, ServerAnswer(up, q, body))
    ensures After(s, ServerAnswer(up, q, body)) == s.(answers := s.answers + {Answer(up, q, body)})
  {}

  lemma UpstreamDispatchStep(s: System, ans: Answer)
    requires ans in s.answers && ans.id in s.upstream.pending
    ensures Can(s, UpstreamDispatch(ans))
    ensures After(s, UpstreamDispatch(ans))
         == s.(upstream := Next(s.upstream, Claim(ans.id, Reply(ans, ans.body.ServerError?))))
  {}

  lemma UpstreamOwnStep(s: System, a: Action<Answer>)
    requires !a.Claim? && Enabled(s.upstream, a)
    ensures Can(s, Upstream(a)) && After(s, Upstream(a)) == s.(upstream := Next(s.upstream, a))
  {}

  lemma AnswerIsTaken(s: System, ans: Answer) returns (s': System)
    requires (ans.id, ans.question) in s.requests && ans.id in s.upstream.pending
    ensures Leads(s, [ServerAnswer(ans.id, ans.question, ans.body), UpstreamDispatch(ans)], s')
    ensures s'.conns == s.conns
    ensures s'.upstream == Next(s.upstream, Claim(ans.id, Reply(ans, ans.body.ServerError?)))
  {
    hide After, Can, Next;
    AnswerStep(s, ans.id, ans.question, ans.body);
    var s1 := After(s, ServerAnswer(ans.id, ans.question, ans.body));
    UpstreamDispatchStep(s1, ans);
    s' := After(s1, UpstreamDispatch(ans));
    TwoSteps(s, ServerAnswer(ans.id, ans.question, ans.body), s1, UpstreamDispatch(ans), s');
  }

  lemma AnswerIsCollected(s: System, up: nat) returns (s': System)
    requires Enabled(s.upstream, Deliver(up)) && Enabled(Next(s.upstream, Deliver(up)), Collect(up))
    ensures Leads(s, [Upstream(Deliver(up)), Upstream(Collect(up))], s')
    ensures s'.conns == s.conns && s'.upstream == Next(Next(s.upstream, Deliver(up)), Collect(up))
  {
    hide After, Can, Next, Enabled;
    UpstreamOwnStep(s, Deliver(up));
    var s1 := After(s, Upstream(Deliver(up)));
    UpstreamOwnStep(s1, Collect(up));
    s' := After(s1, Upstream(Collect(up)));
    TwoSteps(s, Upstream(Deliver(up)), s1, Upstream(Collect(up)), s');
  }

  /** From the server's answer until the handler's call has returned it. */
  lemma AnswerComesIn(s: System, c: nat, id: nat, ans: Answer) returns (s': System)
    requires SystemOk(s) && AtServer(s, c, id, ans.id, ans.question)
    ensures Leads(s, Answering(ans), s') && BackAtBroker(s', c, id, ans)
  {
    hide SystemOk, Inv, Next, Enabled, Leads;
    UpstreamInv(s);
    ReplyIsReturned(s.upstream, ans.id, Reply(ans, ans.body.ServerError?));
    var s1 := AnswerIsTaken(s, ans);
    s' := AnswerIsCollected(s1, ans.id);
    LeadsOn(s, [ServerAnswer(ans.id, ans.question, ans.body), UpstreamDispatch(ans)], s1,
            [Upstream(Deliver(ans.id)), Upstream(Collect(ans.id))], s');
  }

  lemma ThreeEnabled<C(!new)>(client: Client<C>, a1: Action<C>, a2: Action<C>, a3: Action<C>)
    requires Rpc.IsRun(client, [a1, a2, a3])
    ensures Enabled(client, a1) && Enabled(Next(client, a1), a2) && Enabled(Next(Next(client, a1), a2), a3)
    ensures Rpc.Final(client, [a1, a2, a3]) == Next(Next(Next(client, a1), a2), a3)
  {
    hide Enabled, Next;
    assert [a1, a2, a3][1..] == [a2, a3] && [a2, a3][1..] == [a3] && [a3][1..] == [];
    assert Rpc.IsRun(Next(client, a1), [a2, a3]) && Rpc.IsRun(Next(Next(client, a1), a2), [a3]);
    ThreeActions(client, a1, a2, a3);
  }

  lemma ReplyIsReturned<C(!new)>(client: Client<C>, id: nat, r: Reply<C>)
    requires Inv(client) && id in client.pending && id !in client.returned
    ensures Enabled(client, Claim(id, r)) && Enabled(Next(client, Claim(id, r)), Deliver(id))
    ensures Enabled(Next(Next(client, Claim(id, r)), Deliver(id)), Collect(id))
    ensures var c3 := Next(Next(Next(client, Claim(id, r)), Deliver(id)), Collect(id));
            id in c3.returned && c3.returned[id] == if r.isError then AnsweredError(r.content) else Answered(r.content)
  {
    hide Inv, Enabled, Next;
    ReplyReachesCaller(client, id, r);
    ThreeEnabled(client, Claim(id, r), Deliver(id), Collect(id));
  }

  lemma FinishStep(s: System, c: nat)
    requires Live(s, c) && s.conns[c].handler.Busy? && s.conns[c].handler.upstream in s.upstream.returned
    requires s.conns[c].toClient == []
    ensures Can(s, HandlerFinish(c))
    ensures var k, s' := s.conns[c], After(s, HandlerFinish(c));
            Live(s', c) && s'.conns[c] == k.(handler := Idle,
              toClient := [(k.handler.id, Response(s.upstream.returned[k.handler.upstream]))])
  {
    hide Response;
  }

  lemma TakeStep(s: System, c: nat, id: nat, r: Reply<Relay>)
    requires Live(s, c) && s.conns[c].toClient == [(id, r)] && id in s.conns[c].client.pending
    ensures Can(s, DaemonDispatch(c))
    ensures var k, s' := s.conns[c], After(s, DaemonDispatch(c));
            Live(s', c) && s'.conns[c] == k.(toClient := [], client := Next(k.client, Claim(id, r)))
  {
    assert [(id, r)][1..] == [];
  }

  lemma OwnStep(s: System, c: nat, a: Action<Relay>)
    requires Live(s, c) && !a.Claim? && Enabled(s.conns[c].client, a)
    ensures Can(s, Daemon(c, a))
    ensures var k, s' := s.conns[c], After(s, Daemon(c, a));
            Live(s', c) && s'.conns[c] == k.(client := Next(k.client, a))
  {}

  /** From the end of the handler's call until the caller returns. */
  lemma AnswerGoesBack(s: System, c: nat, id: nat, ans: Answer) returns (s': System)
    requires SystemOk(s) && BackAtBroker(s, c, id, ans)
    ensures Leads(s, Returning(c, id), s') && Settled(s', c, id, ans)
  {
    var r := Reply(Relayed(ans), ans.body.ServerError?);
    var client := s.conns[c].client;
    ConnInv(s, c);
    assert Response(s.upstream.returned[ans.id]) == r;
    hide SystemOk, Inv, After, Can, IsRun, Final, Next, Enabled, Response;
    ReplyIsReturned(client, id, r);
    FinishStep(s, c);
    var s1 := After(s, HandlerFinish(c));
    TakeStep(s1, c, id, r);
    var s2 := After(s1, DaemonDispatch(c));
    TwoSteps(s, HandlerFinish(c), s1, DaemonDispatch(c), s2);
    OwnStep(s2, c, Deliver(id));
    var s3 := After(s2, Daemon(c, Deliver(id)));
    OwnStep(s3, c, Collect(id));
    s' := After(s3, Daemon(c, Collect(id)));
    TwoSteps(s2, Daemon(c, Deliver(id)), s3, Daemon(c, Collect(id)), s');
    hide Leads;
    LeadsOn(s, [HandlerFinish(c), DaemonDispatch(c)], s2, [Daemon(c, Deliver(id)), Daemon(c, Collect(id))], s');
  }

  lemma RequestArrives(s: System, c: nat, q: Question) returns (s': System)
    requires SystemOk(s) && c in s.conns && Quiet(s.conns[c])
    ensures var id, up := s.conns[c].client.nextId + 1, s.upstream.nextId + 1;
            Leads(s, Asking(c, id, q) + Forwarding(c, up), s') && SystemOk(s') && AtServer(s', c, id, up, q)
  {
    hide SystemOk, Leads, AtBroker, AtServer, Asking, Forwarding, Quiet;
    var id, up := s.conns[c].client.nextId + 1, s.upstream.nextId + 1;
    var s1 := RequestIsSent(s, c, q);
    LeadsToOk(s, Asking(c, id, q), s1);
    s' := RequestIsForwarded(s1, c, id, q);
    LeadsToOk(s1, Forwarding(c, up), s');
    LeadsOn(s, Asking(c, id, q), s1, Forwarding(c, up), s');
  }

  lemma AnswerReturns(s: System, c: nat, id: nat, ans: Answer) returns (s': System)
    requires SystemOk(s) && AtServer(s, c, id, ans.id, ans.question)
    ensures Leads(s, Answering(ans) + Returning(c, id), s') && Settled(s', c, id, ans)
  {
    hide SystemOk, Leads, AtServer, BackAtBroker, Answering, Returning, Settled;
    var s1 := AnswerComesIn(s, c, id, ans);
    LeadsToOk(s, Answering(ans), s1);
    s' := AnswerGoesBack(s1, c, id, ans);
    LeadsOn(s, Answering(ans), s1, Returning(c, id), s');
  }

  /** On a quiet connection, in any reachable state, a request goes all the way to the server and its
      answer all the way back: a result as a result, an error as an error. */
  lemma UndisturbedExchange(s: System, c: nat, q: Question, body: Body) returns (s': System)
    requires SystemOk(s) && c in s.conns && Quiet(s.conns[c])
    ensures var id, ans := s.conns[c].client.nextId + 1, Answer(s.upstream.nextId + 1, q, body);
            && Leads(s, (Asking(c, id, q) + Forwarding(c, ans.id)) + (Answering(ans) + Returning(c, id)), s')
            && c in s'.conns && id in s'.conns[c].client.returned
            && s'.conns[c].client.returned[id]
               == if body.ServerError? then AnsweredError(Relayed(ans)) else Answered(Relayed(ans))
  {
    hide SystemOk, Leads, AtServer, Asking, Forwarding, Answering, Returning, Quiet;
    var id, ans := s.conns[c].client.nextId + 1, Answer(s.upstream.nextId + 1, q, body);
    var s1 := RequestArrives(s, c, q);
    s' := AnswerReturns(s1, c, id, ans);
    LeadsOn(s, Asking(c, id, q) + Forwarding(c, ans.id), s1, Answering(ans) + Returning(c, id), s');
  }

  lemma RegisterReturnsNothing(client: Client<Relay>, q: Question)
    ensures Next(client, Register(q)).returned == client.returned
  {}

  // ---- What a late reply leads to ----

  /** A message for the id is under way on the connection, in either direction or in its handler. */
  predicate UnderWay(k: Conn, id: nat) {
    || (exists i | 0 <= i < |k.toBroker| :: k.toBroker[i].id == id)
    || (exists i | 0 <= i < |k.toClient| :: k.toClient[i].0 == id)
    || (k.handler.Busy? && k.handler.id == id)
  }

  /** A message is under way that no caller waits for any more. */
  predicate Haunted(k: Conn) {
    exists id | id in k.client.issued :: Gone(k.client, id) && UnderWay(k, id)
  }

  lemma ClientStepHaunts(s: System, c: nat, a: Action<Relay>, id: nat)
    requires Can(s, Daemon(c, a)) && Inv(s.conns[c].client)
    requires Gone(s.conns[c].client, id) && UnderWay(s.conns[c], id)
    ensures var k' := After(s, Daemon(c, a)).conns[c];
            k'.open == s.conns[c].open && Gone(k'.client, id) && UnderWay(k', id)
  {
    hide Next;
    GoneStep(s.conns[c].client, a, id);
    hide Inv, Enabled;
  }

  lemma HandlerReadHaunts(s: System, c: nat, id: nat)
    requires Can(s, HandlerRead(c)) && UnderWay(s.conns[c], id)
    ensures var k' := After(s, HandlerRead(c)).conns[c];
            k'.open && k'.client == s.conns[c].client && UnderWay(k', id)
  {
    hide Next;
    var k := s.conns[c];
    if i :| 0 < i < |k.toBroker| && k.toBroker[i].id == id {
      assert k.toBroker[1..][i - 1].id == id;
    }
  }

  lemma HandlerFinishHaunts(s: System, c: nat, id: nat)
    requires Can(s, HandlerFinish(c)) && s.conns[c].open && UnderWay(s.conns[c], id)
    ensures var k' := After(s, HandlerFinish(c)).conns[c];
            k'.open && k'.client == s.conns[c].client && UnderWay(k', id)
  {
    hide Next, Response;
    var k, k' := s.conns[c], After(s, HandlerFinish(c)).conns[c];
    assert k'.toClient[|k.toClient|].0 == k.handler.id;
    if i :| 0 <= i < |k.toClient| && k.toClient[i].0 == id {
      assert k'.toClient[i].0 == id;
    }
  }

  /** The client takes a response: one that nobody waits for comes back as an echo. */
  lemma DaemonDispatchHaunts(s: System, c: nat, id: nat)
    requires Can(s, DaemonDispatch(c)) && Inv(s.conns[c].client)
    requires Gone(s.conns[c].client, id) && UnderWay(s.conns[c], id)
    ensures var k' := After(s, DaemonDispatch(c)).conns[c];
            k'.open && Gone(k'.client, id) && UnderWay(k', id)
  {
    hide Next;
    var k, k' := s.conns[c], After(s, DaemonDispatch(c)).conns[c];
    var (first, reply) := k.toClient[0];
    if first in k.client.pending {
      GoneStep(k.client, Claim(first, reply), id);
    }
    hide Inv;
    if i :| 0 < i < |k.toClient| && k.toClient[i].0 == id {
      assert k'.toClient[i - 1].0 == id;
    } else if i :| 0 <= i < |k.toBroker| && k.toBroker[i].id == id {
      assert k'.toBroker[i].id == id;
    } else if first == id {
      assert k'.toBroker[|k.toBroker|].id == id;
    }
  }

  lemma ConnInv(s: System, c: nat)
    requires SystemOk(s) && c in s.conns
    ensures Inv(s.conns[c].client)
  {
    hide Inv, Carries, QueuesOk, HandlerOk, UpstreamOk;
    assert ConnOk(s, c, s.conns[c]);
  }

  lemma StepHaunts(s: System, t: Step, c: nat, id: nat)
    requires SystemOk(s) && Can(s, t) && t != Disconnect(c)
    requires Live(s, c) && Gone(s.conns[c].client, id) && UnderWay(s.conns[c], id)
    ensures Live(After(s, t), c)
    ensures Gone(After(s, t).conns[c].client, id) && UnderWay(After(s, t).conns[c], id)
  {
    hide SystemOk, Gone, Next, Response, Inv, UnderWay, Enabled;
    ConnInv(s, c);
    match t
    case Daemon(d, a) =>
      if d == c {
        ClientStepHaunts(s, c, a, id);
      }
    case Transmit(d, _) =>
      if d == c {
        TransmitHaunts(s, t, c, id);
      }
    case HandlerRead(d) =>
      if d == c {
        HandlerReadHaunts(s, c, id);
      }
    case HandlerFinish(d) =>
      if d == c {
        HandlerFinishHaunts(s, c, id);
      }
    case DaemonDispatch(d) =>
      if d == c {
        DaemonDispatchHaunts(s, c, id);
      }
    case _ =>
  }

  lemma TransmitHaunts(s: System, t: Step, c: nat, id: nat)
    requires Can(s, t) && t.Transmit? && t.c == c && UnderWay(s.conns[c], id)
    ensures var k' := After(s, t).conns[c];
            k'.open && k'.client == s.conns[c].client && UnderWay(k', id)
  {
    var k, k' := s.conns[c], After(s, t).conns[c];
    if i :| 0 <= i < |k.toBroker| && k.toBroker[i].id == id {
      assert k'.toBroker[i].id == id;
    }
  }

  /** Whatever the clients, the broker and the server do, a connection on which a message nobody
      waits for is under way stays so until it is closed: the message is answered, echoed, forwarded
      and answered again. */
  lemma {:induction false} LateReplyNeverSettles(s: System, steps: seq<Step>, c: nat)
    requires SystemOk(s) && IsRun(s, steps) && Disconnect(c) !in steps
    requires Live(s, c) && Haunted(s.conns[c])
    ensures Live(Final(s, steps), c) && Haunted(Final(s, steps).conns[c])
    decreases |steps|
  {
    hide SystemOk, UnderWay, Can, After, Gone;
    if steps != [] {
      assert steps[0] in steps;
      assert forall t | t in steps[1..] :: t in steps;
      var id :| id in s.conns[c].client.issued && Gone(s.conns[c].client, id) && UnderWay(s.conns[c], id);
      StepOk(s, steps[0]);
      StepHaunts(s, steps[0], c, id);
      IsIssued(After(s, steps[0]).conns[c].client, id);
      LateReplyNeverSettles(After(s, steps[0]), steps[1..], c);
    }
  }

  // ---- When it comes to that ----

  function Popped(k: Conn): Conn
    requires k.toClient != []
  {
    k.(toClient := k.toClient[1..])
  }

  /** The step leaves a message on the connection that nobody waits for any more: a client step (a
      timeout, a failed write, the exit, a restart) takes a request out of the pending map while a
      message for it is under way; a request is sent that is no longer pending; or a response settles
      a request of which another message is under way. */
  predicate Begins(s: System, t: Step, c: nat)
    requires Can(s, t) && c in s.conns
  {
    var k := s.conns[c];
    match t
    case Daemon(d, a) => d == c && exists id | id in k.client.pending :: Leaves(k.client, a, id) && UnderWay(k, id)
    case Transmit(d, id) => d == c && id !in k.client.pending
    case DaemonDispatch(d) =>
      d == c && k.toClient[0].0 in k.client.pending && UnderWay(Popped(k), k.toClient[0].0)
    case _ => false
  }

  predicate Leaves(client: Client<Relay>, a: Action<Relay>, id: nat)
    requires Enabled(client, a)
  {
    id !in Next(client, a).pending
  }

  /** Every message under way is for a request the client has issued. */
  lemma UnderWayIsIssued(s: System, c: nat, id: nat)
    requires SystemOk(s) && c in s.conns && UnderWay(s.conns[c], id)
    ensures id in s.conns[c].client.issued
  {
    hide Inv, Carries, UpstreamOk, FitsIn, Proper;
    var k := s.conns[c];
    assert ConnOk(s, c, k);
    if i :| 0 <= i < |k.toBroker| && k.toBroker[i].id == id {
      assert InboundOk(k.client, k.toBroker[i]);
    } else if i :| 0 <= i < |k.toClient| && k.toClient[i].0 == id {
      assert OutboundOk(s, c, k, k.toClient[i]);
    }
  }

  lemma CleanMeansPending(s: System, c: nat, id: nat)
    requires SystemOk(s) && c in s.conns && !Haunted(s.conns[c]) && UnderWay(s.conns[c], id)
    ensures id in s.conns[c].client.issued && id in s.conns[c].client.pending
  {
    hide SystemOk, UnderWay;
    UnderWayIsIssued(s, c, id);
  }

  /** Where the messages under way after a step of the connection come from. */
  lemma UnderWayBefore(s: System, t: Step, c: nat, id: nat)
    requires Can(s, t) && Live(s, c) && (t.HandlerRead? || t.HandlerFinish? || t.Transmit?) && t.c == c
    requires UnderWay(After(s, t).conns[c], id)
    ensures UnderWay(s.conns[c], id) || (t.Transmit? && t.id == id)
    ensures After(s, t).conns[c].client == s.conns[c].client
  {
    hide Next, Response;
    var k, k' := s.conns[c], After(s, t).conns[c];
    if i :| 0 <= i < |k'.toBroker| && k'.toBroker[i].id == id {
      if t.HandlerRead? {
        assert k.toBroker[i + 1] == k'.toBroker[i];
      } else if i < |k.toBroker| {
        assert k.toBroker[i] == k'.toBroker[i];
      }
    } else if i :| 0 <= i < |k'.toClient| && k'.toClient[i].0 == id {
      if i < |k.toClient| {
        assert k.toClient[i] == k'.toClient[i];
      }
    } else if t.HandlerRead? {
      assert k.toBroker[0].id == id;
    }
  }

  lemma ClientStepBegins(s: System, c: nat, a: Action<Relay>)
    requires Can(s, Daemon(c, a)) && SystemOk(s) && !Haunted(s.conns[c])
    ensures Haunted(After(s, Daemon(c, a)).conns[c]) <==> Begins(s, Daemon(c, a), c)
  {
    ConnInv(s, c);
    var k, k' := s.conns[c], After(s, Daemon(c, a)).conns[c];
    SameQueues(k, k');
    hide SystemOk, UnderWay, Next, Enabled;
    if Haunted(k') {
      var id :| id in k'.client.issued && Gone(k'.client, id) && UnderWay(k', id);
      CleanMeansPending(s, c, id);
    }
    if id :| id in k.client.pending && Leaves(k.client, a, id) && UnderWay(k, id) {
      UnderWayIsIssued(s, c, id);
      GoneStep(k.client, a, id);
      assert Gone(k'.client, id);
    }
  }

  lemma SameQueues(k: Conn, k': Conn)
    requires k'.toBroker == k.toBroker && k'.toClient == k.toClient && k'.handler == k.handler
    ensures forall id :: UnderWay(k', id) <==> UnderWay(k, id)
  {}

  lemma MovingBegins(s: System, t: Step, c: nat)
    requires Can(s, t) && Live(s, c) && (t.HandlerRead? || t.HandlerFinish? || t.Transmit?) && t.c == c
    requires SystemOk(s) && !Haunted(s.conns[c])
    ensures Haunted(After(s, t).conns[c]) <==> Begins(s, t, c)
  {
    var k, k' := s.conns[c], After(s, t).conns[c];
    hide SystemOk, UnderWay, Next, Response;
    if Haunted(k') {
      var id :| id in k'.client.issued && Gone(k'.client, id) && UnderWay(k', id);
      UnderWayBefore(s, t, c, id);
      if UnderWay(k, id) {
        CleanMeansPending(s, c, id);
      }
    }
    if Begins(s, t, c) {
      TransmitArrives(s, t);
      assert Gone(k'.client, t.id);
    }
  }

  lemma TransmitArrives(s: System, t: Step)
    requires Can(s, t) && t.Transmit?
    ensures var k' := After(s, t).conns[t.c];
            k'.client == s.conns[t.c].client && UnderWay(k', t.id)
  {
    var k, k' := s.conns[t.c], After(s, t).conns[t.c];
    assert k'.toBroker[|k.toBroker|].id == t.id;
  }

  lemma DaemonDispatchBegins(s: System, c: nat)
    requires Can(s, DaemonDispatch(c)) && SystemOk(s) && !Haunted(s.conns[c])
    ensures Haunted(After(s, DaemonDispatch(c)).conns[c]) <==> Begins(s, DaemonDispatch(c), c)
  {
    hide SystemOk, UnderWay, Next, Inv;
    var k, first := s.conns[c], s.conns[c].toClient[0].0;
    FirstIsUnderWay(k);
    CleanMeansPending(s, c, first);
    ConnInv(s, c);
    DispatchSettles(s, c);
    forall id | UnderWay(Popped(k), id) ensures id in k.client.issued && id in k.client.pending {
      PoppedIsUnderWay(k, id);
      CleanMeansPending(s, c, id);
    }
    hide After, Can;
  }

  /** A response that is waited for settles its request. */
  lemma DispatchSettles(s: System, c: nat)
    requires Can(s, DaemonDispatch(c)) && s.conns[c].toClient[0].0 in s.conns[c].client.pending
    requires Inv(s.conns[c].client)
    ensures var k, k', first := s.conns[c], After(s, DaemonDispatch(c)).conns[c], s.conns[c].toClient[0].0;
            && k'.client.pending == k.client.pending - {first} && k'.client.issued == k.client.issued
            && first in k.client.issued
            && forall id :: UnderWay(k', id) <==> UnderWay(Popped(k), id)
  {
    var k, k' := s.conns[c], After(s, DaemonDispatch(c)).conns[c];
    var (first, reply) := k.toClient[0];
    ClaimRemoves(k.client, first, reply);
    SameQueues(Popped(k), k');
    hide UnderWay, Next;
  }

  lemma ClaimRemoves(client: Client<Relay>, id: nat, reply: Reply<Relay>)
    requires id in client.pending
    ensures Next(client, Claim(id, reply)).pending == client.pending - {id}
    ensures Next(client, Claim(id, reply)).issued == client.issued
  {}

  lemma FirstIsUnderWay(k: Conn)
    requires k.toClient != []
    ensures UnderWay(k, k.toClient[0].0)
  {}

  lemma PoppedIsUnderWay(k: Conn, id: nat)
    requires k.toClient != [] && UnderWay(Popped(k), id)
    ensures UnderWay(k, id)
  {
    if i :| 0 <= i < |k.toClient| - 1 && Popped(k).toClient[i].0 == id {
      assert k.toClient[i + 1].0 == id;
    }
  }

  /** On an open connection without such a message, a step leaves one exactly in these cases. */
  lemma StepBegins(s: System, t: Step, c: nat)
    requires SystemOk(s) && Can(s, t) && t != Disconnect(c)
    requires Live(s, c) && !Haunted(s.conns[c])
    ensures Live(After(s, t), c)
    ensures Haunted(After(s, t).conns[c]) <==> Begins(s, t, c)
  {
    hide SystemOk, Haunted, Next, Response, UnderWay, Enabled;
    match t
    case Daemon(d, a) =>
      if d == c {
        ClientStepBegins(s, c, a);
      }
    case Transmit(d, _) =>
      if d == c {
        MovingBegins(s, t, c);
      }
    case HandlerRead(d) =>
      if d == c {
        MovingBegins(s, t, c);
      }
    case HandlerFinish(d) =>
      if d == c {
        MovingBegins(s, t, c);
      }
    case DaemonDispatch(d) =>
      if d == c {
        DaemonDispatchBegins(s, c);
      }
    case _ =>
  }

  predicate Began(s: System, steps: seq<Step>, c: nat)
    requires IsRun(s, steps)
    decreases |steps|
  {
    steps != [] &&
    ((c in s.conns && Begins(s, steps[0], c)) || Began(After(s, steps[0]), steps[1..], c))
  }

  /** Over whole runs: as long as a connection is open, a message nobody waits for is under way on it
      if and only if one was at the start or a step of the run left one. */
  lemma {:induction false} HauntedIffBegan(s: System, steps: seq<Step>, c: nat)
    requires SystemOk(s) && IsRun(s, steps) && Disconnect(c) !in steps && Live(s, c)
    ensures Live(Final(s, steps), c)
    ensures Haunted(Final(s, steps).conns[c]) <==> Haunted(s.conns[c]) || Began(s, steps, c)
    decreases |steps|
  {
    hide SystemOk, Haunted, Can, After, Begins;
    if steps != [] {
      assert steps[0] in steps;
      assert forall t | t in steps[1..] :: t in steps;
      if Haunted(s.conns[c]) {
        LateReplyNeverSettles(s, steps, c);
      } else {
        StepOk(s, steps[0]);
        StepBegins(s, steps[0], c);
        HauntedIffBegan(After(s, steps[0]), steps[1..], c);
      }
    }
  }

  /** In particular, giving up leaves one exactly when a message for the request is under way. */
  lemma GivingUpHaunts(s: System, c: nat, id: nat, o: Outcome<Relay>)
    requires Live(s, c) && Can(s, Daemon(c, GiveUp(id, o)))
    requires SystemOk(s)
    ensures SystemOk(After(s, Daemon(c, GiveUp(id, o)))) && Live(After(s, Daemon(c, GiveUp(id, o))), c)
    ensures Haunted(After(s, Daemon(c, GiveUp(id, o))).conns[c])
       <==> Haunted(s.conns[c]) || UnderWay(s.conns[c], id)
  {
    hide SystemOk, Haunted, UnderWay;
    var t := Daemon(c, GiveUp(id, o));
    StepOk(s, t);
    if Haunted(s.conns[c]) {
      OneStepRun(s, t);
      LateReplyNeverSettles(s, [t], c);
    } else {
      StepBegins(s, t, c);
      GiveUpLeaves(s.conns[c].client, id, o);
      if UnderWay(s.conns[c], id) {
        CleanMeansPending(s, c, id);
      }
    }
  }

  lemma GiveUpLeaves(client: Client<Relay>, id: nat, o: Outcome<Relay>)
    requires Enabled(client, GiveUp(id, o))
    ensures forall other | other in client.pending :: Leaves(client, GiveUp(id, o), other) <==> other == id
  {}

  lemma OneStepRun(s: System, t: Step)
    requires Can(s, t)
    ensures IsRun(s, [t]) && Final(s, [t]) == After(s, t)
  {
    assert [t][1..] == [];
    assert IsRun(After(s, t), []) && Final(After(s, t), []) == After(s, t);
  }

  lemma IsIssued(client: Client<Relay>, id: nat)
    requires Gone(client, id)
    ensures id in client.issued
  {}

  /** On an otherwise quiet connection one round takes four steps and one more upstream request: the
      null response is forwarded as a request without a method, times out, and its error response is
      echoed again. */
  lemma OneRoundOfEchoes(s: System, c: nat, id: nat, o: Outcome<Answer>)
    requires SystemOk(s) && Live(s, c) && (o == TimedOut || o == ContextEnded)
    requires s.conns[c].handler == Idle && s.conns[c].toBroker == [Echo(id)] && s.conns[c].toClient == []
    ensures var up := s.upstream.nextId + 1;
            var steps := [HandlerRead(c), Upstream(GiveUp(up, o)), HandlerFinish(c), DaemonDispatch(c)];
            IsRun(s, steps) && var s' := Final(s, steps);
            c in s'.conns && s'.conns[c] == s.conns[c] && s'.upstream.nextId == up
  {
    var up := s.upstream.nextId + 1;
    assert id !in s.conns[c].client.pending && UpstreamOk(s) by {
      assert InboundOk(s.conns[c].client, s.conns[c].toBroker[0]);
    }
    hide SystemOk, UpstreamOk, After, Can, IsRun, Final;
    EchoIsForwarded(s, c, id);
    var s1 := After(s, HandlerRead(c));
    GivenUp(s1, c, up, o);
    var s2 := After(s1, Upstream(GiveUp(up, o)));
    BrokerResponds(s2, c, id, up);
    var s3 := After(s2, HandlerFinish(c));
    EchoedAgain(s3, c, id);
    FourSteps(s, HandlerRead(c), s1, Upstream(GiveUp(up, o)), s2, HandlerFinish(c), s3, DaemonDispatch(c));
  }

  lemma GivenUp(s: System, c: nat, up: nat, o: Outcome<Answer>)
    requires c in s.conns && up in s.upstream.issued && up !in s.upstream.returned && (o == TimedOut || o == ContextEnded)
    ensures Can(s, Upstream(GiveUp(up, o)))
    ensures var s' := After(s, Upstream(GiveUp(up, o)));
            && c in s'.conns && s'.conns[c] == s.conns[c] && s'.upstream.nextId == s.upstream.nextId
            && up in s'.upstream.returned && s'.upstream.returned[up] == o
  {}

  lemma BrokerResponds(s: System, c: nat, id: nat, up: nat)
    requires Live(s, c) && s.conns[c].handler == Busy(id, up) && s.conns[c].toClient == []
    requires up in s.upstream.returned && !s.upstream.returned[up].Answered? && !s.upstream.returned[up].AnsweredError?
    ensures Can(s, HandlerFinish(c))
    ensures var s' := After(s, HandlerFinish(c));
            && s'.upstream == s.upstream && c in s'.conns
            && s'.conns[c] == s.conns[c].(handler := Idle, toClient := [(id, Reply(BrokerError, true))])
  {}

  lemma EchoedAgain(s: System, c: nat, id: nat)
    requires Live(s, c) && s.conns[c].toClient == [(id, Reply(BrokerError, true))] && s.conns[c].toBroker == []
    requires id !in s.conns[c].client.pending
    ensures Can(s, DaemonDispatch(c))
    ensures var s' := After(s, DaemonDispatch(c));
            && s'.upstream == s.upstream && c in s'.conns
            && s'.conns[c] == s.conns[c].(toClient := [], toBroker := [Echo(id)])
  {
    assert s.conns[c].toClient[1..] == [] && [] + [Echo(id)] == [Echo(id)];
  }

  lemma EchoIsForwarded(s: System, c: nat, id: nat)
    requires UpstreamOk(s)
    requires Live(s, c) && s.conns[c].handler == Idle && s.conns[c].toBroker == [Echo(id)]
    ensures Can(s, HandlerRead(c))
    ensures var s1 := After(s, HandlerRead(c));
            var up := s.upstream.nextId + 1;
            && c in s1.conns && s1.conns[c] == s.conns[c].(toBroker := [], handler := Busy(id, up))
            && s1.upstream.nextId == up && up in s1.upstream.issued && up !in s1.upstream.returned
  {
    assert s.conns[c].toBroker[1..] == [];
    RegisterFacts(s.upstream, EMPTY_REQUEST);
  }

  lemma FourSteps(s: System, t1: Step, s1: System, t2: Step, s2: System, t3: Step, s3: System, t4: Step)
    requires Can(s, t1) && s1 == After(s, t1)
    requires Can(s1, t2) && s2 == After(s1, t2)
    requires Can(s2, t3) && s3 == After(s2, t3)
    requires Can(s3, t4)
    ensures IsRun(s, [t1, t2, t3, t4]) && Final(s, [t1, t2, t3, t4]) == After(s3, t4)
  {
    hide Can, After;
    assert [t1, t2, t3, t4][1..] == [t2, t3, t4] && [t2, t3, t4][1..] == [t3, t4] && [t3, t4][1..] == [t4] && [t4][1..] == [];
    assert IsRun(s3, [t4]) && Final(s3, [t4]) == After(s3, t4);
    assert IsRun(s2, [t3, t4]) && Final(s2, [t3, t4]) == Final(s3, [t4]);
    assert IsRun(s1, [t2, t3, t4]) && Final(s1, [t2, t3, t4]) == Final(s2, [t3, t4]);
  }
}
