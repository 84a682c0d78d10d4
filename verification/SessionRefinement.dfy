/**
 The steps of the system and the objects. What one call of the agent's receive loop or of its
 executing loop does, one exchange of the client with the replies it discards, and one connection
 attempt that gets its greeting, each as its class is proved to do it, is done by a sequence of
 steps. So the states these sequences pass through are states of runs.
*/
module SessionRefinement {
  import opened Wrappers
  import opened Framing
  import JsonValues
  import opened Messages
  import opened Groups
  import opened Agent
  import opened Client
  import opened Errors
  import opened Session
  import opened SessionInvariant
  import opened SessionSteps
  import opened SessionProof

  /** Some steps, one after the other, lead from `s` to `t`. */
  ghost predicate Leads(config: Config, s: State, path: seq<State>, t: State) {
    && path != [] && path[0] == s && path[|path| - 1] == t
    && forall n :: 0 <= n < |path| - 1 ==> Follows(config, path[n], path[n + 1])
  }

  lemma OneStepMore(config: Config, s: State, step: Step, path: seq<State>, t: State)
    requires Enabled(config, s, step) && Leads(config, Apply(config, s, step), path, t)
    ensures Leads(config, s, [s] + path, t)
  {
    var longer := [s] + path;
    forall n | 0 <= n < |longer| - 1 ensures Follows(config, longer[n], longer[n + 1]) {
      if n > 0 { assert longer[n] == path[n - 1] && longer[n + 1] == path[n]; }
    }
  }

  lemma InTwo(config: Config, s: State, first: seq<State>, u: State, second: seq<State>, t: State)
    requires Leads(config, s, first, u) && Leads(config, u, second, t)
    ensures Leads(config, s, first + second[1..], t)
  {
    var path := first + second[1..];
    assert path[|path| - 1] == t;
    forall n | 0 <= n < |path| - 1 ensures Follows(config, path[n], path[n + 1]) {
      if n >= |first| - 1 {
        assert path[n] == second[n - |first| + 1] && path[n + 1] == second[n - |first| + 2];
      }
    }
  }

  lemma {:induction false} LeadingKeepsInv(config: Config, s: State, path: seq<State>, t: State)
    requires Sound(config) && Inv(config, s) && Leads(config, s, path, t)
    ensures Inv(config, t)
    decreases |path|
  {
    if |path| > 1 {
      assert Follows(config, path[0], path[0 + 1]);
      var step :| Enabled(config, s, step) && path[1] == Apply(config, s, step);
      StepKeepsInv(config, s, step);
      var rest := path[1..];
      forall n | 0 <= n < |rest| - 1 ensures Follows(config, rest[n], rest[n + 1]) {
        assert Follows(config, path[n + 1], path[n + 1 + 1]);
      }
      LeadingKeepsInv(config, path[1], path[1..], t);
    }
  }

  // ---- Receiving ------------------------------------------------------------------------------------

  function QueuedFrom(c: nat, requests: seq<Request>): seq<Queued> {
    seq(|requests|, i requires 0 <= i < |requests| => Queued(c, requests[i]))
  }

  /** Nothing but connection `c` and the end of the queue has changed. */
  predicate OnlyHandled(s: State, t: State, c: nat) {
    && c < |s.conns| == |t.conns|
    && (forall d :: 0 <= d < |s.conns| && d != c ==> t.conns[d] == s.conns[d])
    && t.conns[c].up == s.conns[c].up && t.conns[c].consumed == s.conns[c].consumed
    && t.clients == s.clients && t.executed == s.executed && t.returned == s.returned
  }

  lemma OneHandled(config: Config, s: State, c: nat, sessionId: string)
    requires c < |s.conns| && IsUuid(sessionId)
    ensures var next := Apply(config, s, Handle(c, sessionId));
      var turn := HandleNext(config, s.conns[c].link, sessionId);
      && OnlyHandled(s, next, c) && next.conns[c].link == turn.link
      && next.pending == s.pending + QueuedFrom(c, AsList(turn.queued))
  {
  }

  lemma StillOnlyHandled(s: State, t: State, u: State, c: nat)
    requires OnlyHandled(s, t, c) && OnlyHandled(t, u, c)
    ensures OnlyHandled(s, u, c)
  {
  }

  lemma QueuedInTwo(queue: seq<Queued>, c: nat, a: seq<Request>, b: seq<Request>)
    ensures queue + QueuedFrom(c, a + b) == queue + QueuedFrom(c, a) + QueuedFrom(c, b)
  {
    assert QueuedFrom(c, a + b) == QueuedFrom(c, a) + QueuedFrom(c, b);
  }

  lemma {:induction false} HandlingIsSteps(config: Config, s: State, c: nat, sessionId: string)
    returns (path: seq<State>, t: State)
    requires c < |s.conns| && IsUuid(sessionId)
    ensures Leads(config, s, path, t) && OnlyHandled(s, t, c)
    ensures var after := HandleAll(config, s.conns[c].link, sessionId);
      t.conns[c].link == after.0 && t.pending == s.pending + QueuedFrom(c, after.1)
    decreases |s.conns[c].link.buffer|
  {
    var step := Handle(c, sessionId);
    var next, turn := Apply(config, s, step), HandleNext(config, s.conns[c].link, sessionId);
    OneHandled(config, s, c, sessionId);
    if turn.more {
      TurnShrinksBuffer(config, s.conns[c].link, sessionId);
      path, t := HandlingIsSteps(config, next, c, sessionId);
      StillOnlyHandled(s, next, t, c);
      QueuedInTwo(s.pending, c, AsList(turn.queued), HandleAll(config, turn.link, sessionId).1);
    } else {
      path, t := [next], next;
    }
    OneStepMore(config, s, step, path, t);
    path := [s] + path;
  }

  /** One delivery, as `CommandServer.Receive` handles it. */
  lemma DeliveryIsSteps(config: Config, s: State, c: nat, size: nat, sessionId: string)
    returns (path: seq<State>, t: State)
    requires IsUuid(sessionId) && Enabled(config, s, Step.Receive(c, size))
    ensures Leads(config, s, path, t)
    ensures |t.conns| == |s.conns| && t.conns[c].up == s.conns[c].up[size..]
    ensures var before := s.conns[c].link;
      var after := HandleAll(config, before.(buffer := before.buffer + s.conns[c].up[..size]), sessionId);
      t.conns[c].link == after.0 && t.pending == s.pending + QueuedFrom(c, after.1)
  {
    var step := Step.Receive(c, size);
    path, t := HandlingIsSteps(config, Apply(config, s, step), c, sessionId);
    OneStepMore(config, s, step, path, t);
    path := [s] + path;
  }

  // ---- Executing -----------------------------------------------------------------------------------------

  /** The answers to the first `n` queued commands that go to connection `c`. */
  function AnswersOn(c: nat, queue: seq<Queued>, outcomes: seq<Outcome>, n: nat): seq<Group>
    requires n <= |outcomes| && n <= |queue|
  {
    if n == 0 then []
    else
      var earlier := AnswersOn(c, queue, outcomes, n - 1);
      if queue[n - 1].conn == c then earlier + [AnswerTo(queue[n - 1].request.id, outcomes[n - 1])] else earlier
  }

  ghost predicate AllDeliverable(config: Config, s: State, outcomes: seq<Outcome>) {
    && |outcomes| <= |s.pending|
    && forall k :: 0 <= k < |outcomes| ==>
      s.pending[k].conn < |s.conns| && Deliverable(config.wire, AnswerTo(s.pending[k].request.id, outcomes[k]))
  }

  lemma OneAnswered(config: Config, s: State, outcome: Outcome, c: nat)
    requires Enabled(config, s, Execute(outcome)) && c < |s.conns|
    ensures var t := Apply(config, s, Execute(outcome));
      && |t.conns| == |s.conns|
      && t.conns[c].link == if s.pending[0].conn == c
         then Post(config.wire, s.conns[c].link, AnswerTo(s.pending[0].request.id, outcome)) else s.conns[c].link
  {
  }

  /** The state in which the first `n` of the queued commands have been executed. */
  ghost predicate Served(config: Config, s: State, outcomes: seq<Outcome>, n: nat, t: State)
    requires n <= |s.pending| && n <= |outcomes|
  {
    && |t.conns| == |s.conns| && t.pending == s.pending[n..]
    && t.executed == s.executed + seq(n, k requires 0 <= k < n => Executed(s.pending[k], outcomes[k]))
    && forall c :: 0 <= c < |s.conns| ==>
         t.conns[c].link == PostAll(config.wire, s.conns[c].link, AnswersOn(c, s.pending, outcomes, n))
  }

  lemma OneServed(config: Config, s: State, outcomes: seq<Outcome>, n: nat, u: State)
    requires n < |s.pending| && n < |outcomes| && Served(config, s, outcomes, n, u)
    requires Enabled(config, u, Execute(outcomes[n]))
    ensures Served(config, s, outcomes, n + 1, Apply(config, u, Execute(outcomes[n])))
  {
    var t := Apply(config, u, Execute(outcomes[n]));
    assert s.pending[n..][1..] == s.pending[n + 1..];
    forall c | 0 <= c < |s.conns|
      ensures t.conns[c].link == PostAll(config.wire, s.conns[c].link, AnswersOn(c, s.pending, outcomes, n + 1))
    {
      OneAnswered(config, u, outcomes[n], c);
      PostOneMore(config.wire, s.conns[c].link, AnswersOn(c, s.pending, outcomes, n),
                  AnswerTo(s.pending[n].request.id, outcomes[n]));
    }
  }

  /** The first `n` commands executed, as `ServePending` executes them. */
  lemma {:induction false} ServingIsSteps(config: Config, s: State, outcomes: seq<Outcome>, n: nat)
    returns (path: seq<State>, t: State)
    requires AllDeliverable(config, s, outcomes) && n <= |outcomes|
    ensures Leads(config, s, path, t) && Served(config, s, outcomes, n, t)
  {
    if n == 0 {
      path, t := [s], s;
      forall c | 0 <= c < |s.conns| ensures PostAll(config.wire, s.conns[c].link, []) == s.conns[c].link {
        assert s.conns[c].link.outbox + [] == s.conns[c].link.outbox;
      }
    } else {
      var before, u := ServingIsSteps(config, s, outcomes, n - 1);
      OneServed(config, s, outcomes, n - 1, u);
      t := Apply(config, u, Execute(outcomes[n - 1]));
      path := before + [t];
      assert Follows(config, u, t);
    }
  }

  /** These are the answers `ServePending` sends, for any placing of its connections among those of the system. */
  lemma {:induction false} SameAnswers(c: nat, connection: AgentConnection, commands: seq<Queued>, queue: seq<PendingCommand>,
                                       outcomes: seq<Outcome>, router: (nat, Request) -> Outcome, n: nat)
    requires n <= |commands| == |queue| && n <= |outcomes|
    requires forall k :: 0 <= k < n ==>
      && commands[k].request == queue[k].request && (commands[k].conn == c <==> queue[k].connection == connection)
      && outcomes[k] == router(k, queue[k].request)
    ensures AnswersOn(c, commands, outcomes, n) == AnswersFor(connection, queue, router, n)
  {
    if n > 0 { SameAnswers(c, connection, commands, queue, outcomes, router, n - 1); }
  }

  // ---- Awaiting a reply --------------------------------------------------------------------------------

  lemma DroppedInTwo(sent: seq<Byte>, n: nat, first: seq<Byte>, rest: seq<Byte>)
    requires n <= |sent| && sent[n..] == first + rest
    ensures n + |first| <= |sent| && sent[n + |first|..] == rest
  {
    assert |sent| - n == |first| + |rest|;
    assert sent[n + |first|..] == sent[n..][|first|..];
  }

  /** In a reachable state, reading a group leaves the client with what was behind it. */
  lemma ReadingLeavesTheRest(wire: Wire, k: Conn)
    requires wire.Faithful() && DownInv(wire, k) && ReadGroup(wire, Unread(k)).Got?
    ensures var r := ReadGroup(wire, Unread(k));
      Consume(wire, k, r.group).consumed <= |k.link.outbox| && Unread(Consume(wire, k, r.group)) == r.rest
  {
    var r := ReadGroup(wire, Unread(k));
    ReadsWhole(wire, k);
    DroppedInTwo(k.link.outbox, k.consumed, ResponseBytes(wire, r.group), r.rest);
  }

  /** The discard loop, as `ControllerClient.AwaitMatching` runs it when the reply is there to be read. */
  lemma {:induction false} AwaitingIsSteps(config: Config, s: State, i: nat) returns (path: seq<State>, t: State)
    requires Sound(config) && Inv(config, s)
    requires Reading(s, i) && s.clients[i].phase.Awaiting?
    requires AwaitReply(config.wire, Unread(s.conns[s.clients[i].at]), s.clients[i].phase.request.id).Found?
    ensures Leads(config, s, path, t)
    ensures var (at, request) := (s.clients[i].at, s.clients[i].phase.request);
      var found := AwaitReply(config.wire, Unread(s.conns[at]), request.id);
      && t.returned == s.returned + [Returned(i, at, request, found.group)]
      && |t.conns| == |s.conns| && t.conns[at].consumed <= |t.conns[at].link.outbox|
      && Unread(t.conns[at]) == found.rest
      && t.clients == s.clients[i := s.clients[i].(phase := Idle)]
      && t.pending == s.pending && t.executed == s.executed
    decreases |Unread(s.conns[s.clients[i].at])|
  {
    var at, request := s.clients[i].at, s.clients[i].phase.request;
    var k, step := s.conns[at], Step.ReadReply(i);
    var r := ReadGroup(config.wire, Unread(k));
    var next := Apply(config, s, step);
    assert ClientOk(s, i) && ConnOk(config, s, at);
    ReadingLeavesTheRest(config.wire, k);
    GroupShrinksStream(config.wire, Unread(k));
    if r.group.message.Id() == request.id {
      path, t := [next], next;
    } else {
      StepKeepsInv(config, s, step);
      path, t := AwaitingIsSteps(config, next, i);
    }
    OneStepMore(config, s, step, path, t);
    path := [s] + path;
  }

  /** Reading and discarding one reply. */
  lemma OneSkipped(config: Config, u: State, i: nat)
    requires Sound(config) && Inv(config, u) && Reading(u, i) && u.clients[i].phase.Awaiting?
    requires var r := ReadGroup(config.wire, Unread(u.conns[u.clients[i].at]));
      r.Got? && r.group.message.Id() != u.clients[i].phase.request.id
    ensures var t := Apply(config, u, Step.ReadReply(i));
      && Inv(config, t) && Follows(config, u, t)
      && t.clients == u.clients && t.returned == u.returned && Reading(t, i)
      && Unread(t.conns[u.clients[i].at]) == ReadGroup(config.wire, Unread(u.conns[u.clients[i].at])).rest
  {
    var at := u.clients[i].at;
    assert ClientOk(u, i) && ConnOk(config, u, at);
    ReadingLeavesTheRest(config.wire, u.conns[at]);
    StepKeepsInv(config, u, Step.ReadReply(i));
  }

  /** Reading and discarding `n` replies. */
  lemma {:induction false} SkippingIsSteps(config: Config, s: State, i: nat, n: nat) returns (path: seq<State>, t: State)
    requires Sound(config) && Inv(config, s)
    requires Reading(s, i) && s.clients[i].phase.Awaiting?
    requires Skipped(config.wire, Unread(s.conns[s.clients[i].at]), s.clients[i].phase.request.id, n).Some?
    ensures Leads(config, s, path, t) && Inv(config, t)
    ensures t.clients == s.clients && t.returned == s.returned && Reading(t, i)
    ensures var at := s.clients[i].at;
      Some(Unread(t.conns[at])) == Skipped(config.wire, Unread(s.conns[at]), s.clients[i].phase.request.id, n)
    decreases n
  {
    if n == 0 {
      path, t := [s], s;
    } else {
      var before, u := SkippingIsSteps(config, s, i, n - 1);
      OneSkipped(config, u, i);
      t := Apply(config, u, Step.ReadReply(i));
      path := before + [t];
    }
  }

  // ---- One exchange --------------------------------------------------------------------------------------

  /** How an exchange of `ControllerClient.InvokeOnce` ends once the command is written. */
  datatype Ending = Replied | GivenUp(discarded: nat) | CutOff(discarded: nat)

  ghost predicate CanEnd(config: Config, u: State, i: nat, ending: Ending) {
    && Reading(u, i) && u.clients[i].phase.Awaiting?
    && var (unread, id) := (Unread(u.conns[u.clients[i].at]), u.clients[i].phase.request.id);
       match ending
       case Replied => AwaitReply(config.wire, unread, id).Found?
       case GivenUp(n) => Skipped(config.wire, unread, id, n).Some?
       case CutOff(n) => Skipped(config.wire, unread, id, n).Some?
  }

  /** The state after the end: what was returned, what is left to read, and whether the socket is kept. */
  ghost predicate Ended(config: Config, u: State, i: nat, ending: Ending, t: State)
    requires CanEnd(config, u, i, ending)
  {
    var at, request := u.clients[i].at, u.clients[i].phase.request;
    var unread := Unread(u.conns[at]);
    && i < |t.clients| && at < |t.conns| && t.conns[at].consumed <= |t.conns[at].link.outbox|
    && t.clients[i].nextId == u.clients[i].nextId && t.clients[i].at == at
    && match ending
       case Replied =>
         var found := AwaitReply(config.wire, unread, request.id);
         t.returned == u.returned + [Returned(i, at, request, found.group)] && Unread(t.conns[at]) == found.rest && t.clients[i].phase.Idle?
       case GivenUp(n) =>
         t.returned == u.returned && Some(Unread(t.conns[at])) == Skipped(config.wire, unread, request.id, n) && t.clients[i].phase.Idle?
       case CutOff(n) =>
         t.returned == u.returned && t.clients[i].phase.Offline?
  }

  lemma EndingIsSteps(config: Config, u: State, i: nat, ending: Ending) returns (path: seq<State>, t: State)
    requires Sound(config) && Inv(config, u) && CanEnd(config, u, i, ending)
    ensures Leads(config, u, path, t) && Ended(config, u, i, ending, t)
  {
    match ending
    case Replied => path, t := AwaitingIsSteps(config, u, i);
    case GivenUp(n) =>
      var before, v := SkippingIsSteps(config, u, i, n);
      t := Apply(config, v, GiveUp(i));
      assert Follows(config, v, t);
      path := before + [t];
    case CutOff(n) =>
      var before, v := SkippingIsSteps(config, u, i, n);
      t := Apply(config, v, Drop(i));
      assert Follows(config, v, t);
      path := before + [t];
  }

  /**
   One exchange, as `ControllerClient.InvokeOnce` runs it: the command is written under the next id,
   the others go on, and then the client reads until the reply is there, the deadline has passed or the
   connection fails. That is a sequence of steps, with the same id spent, the same request written, the
   same reply returned and the same bytes left.
  */
  lemma InvokingIsSteps(config: Config, s: State, i: nat, command: string, params: JsonValues.Json,
                        meanwhile: seq<State>, u: State, ending: Ending) returns (path: seq<State>, t: State)
    requires Sound(config) && Inv(config, s)
    requires var step := Invoke(i, command, params, WriteDone);
      Enabled(config, s, step) && Leads(config, Apply(config, s, step), meanwhile, u)
      && i < |u.clients| && u.clients[i] == Apply(config, s, step).clients[i] && u.clients[i].phase.Awaiting?
    requires CanEnd(config, u, i, ending)
    ensures Leads(config, s, path, t) && Ended(config, u, i, ending, t)
    ensures var request := Request(s.clients[i].nextId + 1, command, params);
      && t.clients[i].nextId == request.id && u.clients[i].phase == Awaiting(request)
      && Apply(config, s, Invoke(i, command, params, WriteDone)).conns[s.clients[i].at] ==
         Extended(config.wire, s.conns[s.clients[i].at], request)
  {
    var step := Invoke(i, command, params, WriteDone);
    StepKeepsInv(config, s, step);
    LeadingKeepsInv(config, Apply(config, s, step), meanwhile, u);
    OneStepMore(config, s, step, meanwhile, u);
    var rest, last := EndingIsSteps(config, u, i, ending);
    InTwo(config, s, [s] + meanwhile, u, rest, last);
    path, t := [s] + meanwhile + rest[1..], last;
  }

  /** An exchange that fails to write is one step: the id is spent, nothing is written. */
  lemma FailingToWriteIsAStep(config: Config, s: State, i: nat, command: string, params: JsonValues.Json, result: WriteResult)
    requires Enabled(config, s, Invoke(i, command, params, result)) && !result.WriteDone?
    ensures var t := Apply(config, s, Invoke(i, command, params, result));
      && Leads(config, s, [s, t], t) && t.conns == s.conns && t.returned == s.returned
      && t.clients[i].nextId == s.clients[i].nextId + 1 && !t.clients[i].phase.Awaiting?
  {
    assert Follows(config, s, Apply(config, s, Invoke(i, command, params, result)));
  }

  // ---- Connecting --------------------------------------------------------------------------------------------

  /**
   A connection attempt, as `ControllerClient.Attempt` makes it: the handshake is written on a new
   socket, the others go on, and then one message is read.
  */
  lemma ConnectingIsSteps(config: Config, s: State, i: nat, hello: Hello, meanwhile: seq<State>, u: State)
    returns (path: seq<State>, t: State)
    requires Sound(config) && Inv(config, s)
    requires var step := Step.Connect(i, hello);
      Enabled(config, s, step) && Leads(config, Apply(config, s, step), meanwhile, u)
      && i < |u.clients| && u.clients[i] == Apply(config, s, step).clients[i]
    requires Enabled(config, u, ReadGreeting(i))
    ensures Leads(config, s, path, t)
    ensures Apply(config, s, Step.Connect(i, hello)).conns == s.conns + [Session.Opened(config, i, s.clients[i].nextId, hello)]
    ensures ReadGroup(config.wire, Unread(u.conns[u.clients[i].at])).Got?
    ensures i < |t.clients| && t.clients[i] == u.clients[i].(phase := Idle) && t.clients[i].nextId == s.clients[i].nextId
  {
    var step := Step.Connect(i, hello);
    StepKeepsInv(config, s, step);
    LeadingKeepsInv(config, Apply(config, s, step), meanwhile, u);
    OneStepMore(config, s, step, meanwhile, u);
    assert ClientOk(u, i) && ConnOk(config, u, u.clients[i].at);
    ReadingNext(config.wire, u.conns[u.clients[i].at]);
    t := Apply(config, u, ReadGreeting(i));
    assert Follows(config, u, t);
    assert Leads(config, u, [u, t], t);
    InTwo(config, s, [s] + meanwhile, u, [u, t], t);
    path := [s] + meanwhile + [u, t][1..];
  }

  // ---- The handshake, from end to end ------------------------------------------------------------------

  /**
   What a client makes of the agent's answer to its handshake: it is connected exactly if its version
   is 1 and, where the agent has a token, its token is like it; a wrong token raises `IOSUnauthorized`
   and a wrong version `IOSProtocolError`.
  */
  lemma HandshakeEndToEnd(config: Config, hello: Hello, sessionId: string, later: seq<Byte>)
    requires Sound(config) && IsUuid(sessionId) && Sendable(UpFrame(config.wire, WroteHello(hello)))
    ensures var answer := HandshakeAnswer(config, UpFrame(config.wire, WroteHello(hello)).payload, sessionId);
      HandshakeOutcome(config.wire, hello, ResponseBytes(config.wire, answer) + later) ==
        if Credentials(config, hello) then Ok(Welcome(1, AGENT_VERSION, sessionId, config.device))
        else Err(Raised(if hello.protocolVersion == 1 then Unauthorized else ProtocolError))
  {
    var payload := UpFrame(config.wire, WroteHello(hello)).payload;
    var answer := HandshakeAnswer(config, payload, sessionId);
    HandshakeAnswersFit(config, payload, sessionId);
    AcceptableIsCredentials(config, hello);
    var f := Frame(FrameType.Json, config.wire.encodeDown(answer.message).value);
    assert ResponseBytes(config.wire, answer) + later == Encode(f) + later;
    ParseEncoded(f, later);
  }
}
