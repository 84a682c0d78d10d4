/**
 The protocol does its work: from any initial state a command can be asked, executed and answered, and
 in no run is anything executed without being answered.
*/
module SessionProgress {
  import opened Wrappers
  import opened JsonValues
  import opened Framing
  import opened Messages
  import opened Groups
  import opened Agent
  import opened Session
  import opened SessionInvariant
  import opened SessionSteps

  /** What is asked, by whom, and how it ends. */
  datatype Task = Task(client: nat, hello: Hello, sessionId: string, command: string, params: Json, outcome: Outcome)
  {
    function ItsRequest(): Request {
      Request(1, command, params)
    }
  }

  /** Nothing stands in the way: credentials, sizes, and the encoding of the answer. */
  ghost predicate Feasible(config: Config, s: State, t: Task) {
    && t.client < |s.clients|
    && t.hello.protocolVersion == s.clients[t.client].protocolVersion && t.hello.token == s.clients[t.client].token
    && Credentials(config, t.hello) && IsUuid(t.sessionId)
    && Sendable(UpFrame(config.wire, WroteHello(t.hello))) && Sendable(UpFrame(config.wire, WroteRequest(t.ItsRequest())))
    && WellFormed(config.wire, AnswerTo(1, t.outcome))
  }

  /** The first state, but for one client and the only connection there is. */
  function With(s: State, t: Task, c: Client, k: Conn, pending: seq<Queued>, arrived: seq<Queued>,
                executed: seq<Executed>, returned: seq<Returned>): State
    requires t.client < |s.clients|
  {
    State(s.clients[t.client := c], [k], pending, arrived, executed, returned)
  }

  // ---- The connection, stage by stage -----------------------------------------------------------------

  function ItsWelcome(config: Config, t: Task): Group {
    Welcoming(config, t.sessionId)
  }

  function Delivered(k: Conn): Conn {
    k.(up := [], link := k.link.(buffer := k.link.buffer + k.up))
  }

  function Greeted(config: Config, t: Task): Conn {
    Opened(config, t.client, 0, t.hello).(
      up := [], link := Link([], true, t.sessionId, true, ResponseBytes(config.wire, ItsWelcome(config, t))),
      groups := [ItsWelcome(config, t)], credentials := Some(t.hello), unhandled := [])
  }

  function Connected(config: Config, t: Task): Conn {
    Greeted(config, t).(consumed := |ResponseBytes(config.wire, ItsWelcome(config, t))|, read := 1)
  }

  function Asked(config: Config, t: Task): Conn {
    Connected(config, t).(asked := [t.ItsRequest()])
  }

  lemma FirstFrameIsHandled(config: Config, t: Task, s: State)
    requires Sound(config) && Feasible(config, s, t)
    ensures Handled(config, Delivered(Opened(config, t.client, 0, t.hello)), t.sessionId) == (Greeted(config, t), None)
  {
    var k := Delivered(Opened(config, t.client, 0, t.hello));
    var f := UpFrame(config.wire, WroteHello(t.hello));
    ParseEncoded(f, []);
    assert k.link.buffer == Encode(f) + [];
    AcceptableIsCredentials(config, t.hello);
    HandshakeAnswersFit(config, f.payload, t.sessionId);
    var welcome := ItsWelcome(config, t);
    assert HandshakeAnswer(config, f.payload, t.sessionId) == welcome;
    WrittenIsNotEmpty(config.wire, welcome);
    NothingBefore(ResponseBytes(config.wire, welcome));
    NothingBefore([welcome]);
    HandshakeTurn(config, k, t.sessionId);
    assert [WroteHello(t.hello)][1..] == [];
  }

  lemma NothingBefore<T>(s: seq<T>)
    ensures [] + s == s
  {
  }

  lemma WrittenIsNotEmpty(wire: Wire, g: Group)
    requires WellFormed(wire, g)
    ensures ResponseBytes(wire, g) != []
  {
    assert |Encode(Frame(FrameType.Json, wire.encodeDown(g.message).value))| >= 5;
  }

  lemma RequestIsHandled(config: Config, t: Task, s: State)
    requires Sound(config) && Feasible(config, s, t)
    ensures Handled(config, Delivered(Extended(config.wire, Connected(config, t), t.ItsRequest())), t.sessionId) ==
      (Asked(config, t), Some(t.ItsRequest()))
  {
    var k := Delivered(Extended(config.wire, Connected(config, t), t.ItsRequest()));
    var f := UpFrame(config.wire, WroteRequest(t.ItsRequest()));
    ParseEncoded(f, []);
    assert [] + ([] + Encode(f)) == Encode(f) + [];
    RequestTurn(config, k, t.ItsRequest(), [], t.sessionId);
    NothingBefore([t.ItsRequest()]);
    NothingBefore([WroteRequest(t.ItsRequest())]);
    assert [WroteRequest(t.ItsRequest())][1..] == [];
  }

  // ---- The steps ----------------------------------------------------------------------------------------

  function Start(s: State, t: Task): Client
    requires t.client < |s.clients|
  {
    s.clients[t.client].(at := 0)
  }

  lemma ConnectStep(config: Config, s: State, t: Task)
    requires Initial(s) && Feasible(config, s, t)
    ensures Enabled(config, s, Connect(t.client, t.hello))
    ensures Apply(config, s, Connect(t.client, t.hello)) ==
      With(s, t, Start(s, t).(phase := Greeting), Opened(config, t.client, 0, t.hello), [], [], [], [])
  {
    assert s.conns + [Opened(config, t.client, 0, t.hello)] == [Opened(config, t.client, 0, t.hello)];
  }

  lemma ReceiveStep(config: Config, s: State, t: Task, c: Client, k: Conn)
    requires t.client < |s.clients| && k.link.open && k.up != []
    ensures var before := With(s, t, c, k, [], [], [], []);
      && Enabled(config, before, Receive(0, |k.up|))
      && Apply(config, before, Receive(0, |k.up|)) == With(s, t, c, Delivered(k), [], [], [], [])
  {
    assert k.up[|k.up|..] == [] && k.up[..|k.up|] == k.up;
    assert [k][0 := Delivered(k)] == [Delivered(k)];
  }

  lemma HandleStep(config: Config, s: State, t: Task, c: Client, k: Conn, k': Conn, batch: seq<Queued>, request: Option<Request>)
    requires t.client < |s.clients| && IsUuid(t.sessionId) && Handled(config, k, t.sessionId) == (k', request)
    requires batch == if request.Some? then [Queued(0, request.value)] else []
    ensures var before := With(s, t, c, k, [], [], [], []);
      && Enabled(config, before, Handle(0, t.sessionId))
      && Apply(config, before, Handle(0, t.sessionId)) == With(s, t, c, k', batch, batch, [], [])
  {
    assert [k][0 := k'] == [k'];
    assert [] + batch == batch;
  }

  lemma GreetingStep(config: Config, s: State, t: Task)
    requires Sound(config) && Feasible(config, s, t)
    ensures var before := With(s, t, Start(s, t).(phase := Greeting), Greeted(config, t), [], [], [], []);
      && Enabled(config, before, ReadGreeting(t.client))
      && Apply(config, before, ReadGreeting(t.client)) ==
           With(s, t, Start(s, t).(phase := Idle), Connected(config, t), [], [], [], [])
  {
    var k, welcome := Greeted(config, t), ItsWelcome(config, t);
    assert WellFormed(config.wire, welcome) by { assert config.wire.Fits(welcome.message); }
    ReadWritten(config.wire, welcome, []);
    assert Unread(k) == ResponseBytes(config.wire, welcome) + [];
    assert [k][0 := Connected(config, t)] == [Connected(config, t)];
    assert s.clients[t.client := Start(s, t).(phase := Greeting)][t.client := Start(s, t).(phase := Idle)]
        == s.clients[t.client := Start(s, t).(phase := Idle)];
  }

  lemma InvokeStep(config: Config, s: State, t: Task)
    requires Initial(s) && Feasible(config, s, t)
    ensures var before := With(s, t, Start(s, t).(phase := Idle), Connected(config, t), [], [], [], []);
      var step := Invoke(t.client, t.command, t.params, WriteDone);
      && Enabled(config, before, step)
      && Apply(config, before, step) ==
           With(s, t, Start(s, t).(phase := Awaiting(t.ItsRequest()), nextId := 1),
                Extended(config.wire, Connected(config, t), t.ItsRequest()), [], [], [], [])
  {
    var k := Extended(config.wire, Connected(config, t), t.ItsRequest());
    assert [Connected(config, t)][0 := k] == [k];
    var c := Start(s, t).(phase := Awaiting(t.ItsRequest()), nextId := 1);
    assert s.clients[t.client := Start(s, t).(phase := Idle)][t.client := c] == s.clients[t.client := c];
  }

  function ItsAnswer(t: Task): Group {
    AnswerTo(1, t.outcome)
  }

  function Replied(config: Config, t: Task): Conn {
    var k := Asked(config, t);
    k.(link := k.link.(outbox := k.link.outbox + ResponseBytes(config.wire, ItsAnswer(t))), groups := [ItsWelcome(config, t), ItsAnswer(t)])
  }

  lemma ExecuteStep(config: Config, s: State, t: Task, c: Client)
    requires Feasible(config, s, t)
    ensures var (command, done) := (Queued(0, t.ItsRequest()), [Executed(Queued(0, t.ItsRequest()), t.outcome)]);
      var before := With(s, t, c, Asked(config, t), [command], [command], [], []);
      && Enabled(config, before, Execute(t.outcome))
      && Apply(config, before, Execute(t.outcome)) == With(s, t, c, Replied(config, t), [], [command], done, [])
  {
    WrittenIsNotEmpty(config.wire, ItsAnswer(t));
    assert [ItsWelcome(config, t)] + [ItsAnswer(t)] == [ItsWelcome(config, t), ItsAnswer(t)];
    assert [Asked(config, t)][0 := Replied(config, t)] == [Replied(config, t)];
  }

  function Finished(config: Config, t: Task): Conn {
    Consume(config.wire, Replied(config, t), ItsAnswer(t))
  }

  lemma ReplyStep(config: Config, s: State, t: Task, arrived: seq<Queued>, done: seq<Executed>)
    requires Sound(config) && Feasible(config, s, t)
    ensures var before := With(s, t, Start(s, t).(phase := Awaiting(t.ItsRequest()), nextId := 1), Replied(config, t), [], arrived, done, []);
      && Enabled(config, before, ReadReply(t.client))
      && Apply(config, before, ReadReply(t.client)) ==
           With(s, t, Start(s, t).(phase := Idle, nextId := 1), Finished(config, t), [], arrived, done,
                [Returned(t.client, 0, t.ItsRequest(), ItsAnswer(t))])
  {
    var k, answer := Replied(config, t), ItsAnswer(t);
    ReadWritten(config.wire, answer, []);
    assert Unread(k) == ResponseBytes(config.wire, answer) + [];
    assert [k][0 := Finished(config, t)] == [Finished(config, t)];
    var c, c' := Start(s, t).(phase := Awaiting(t.ItsRequest()), nextId := 1), Start(s, t).(phase := Idle, nextId := 1);
    assert s.clients[t.client := c][t.client := c'] == s.clients[t.client := c'];
  }

  // ---- The run --------------------------------------------------------------------------------------------

  ghost predicate RunTo(config: Config, run: seq<State>, first: State, last: State) {
    IsRun(config, run) && run[0] == first && run[|run| - 1] == last
  }

  lemma OneStepMore(config: Config, run: seq<State>, first: State, last: State, step: Step) returns (longer: seq<State>)
    requires RunTo(config, run, first, last) && Enabled(config, last, step)
    ensures RunTo(config, longer, first, Apply(config, last, step))
  {
    longer := run + [Apply(config, last, step)];
    forall n | 0 <= n < |longer| - 1 ensures Follows(config, longer[n], longer[n + 1]) {
      if n < |run| - 1 { assert Follows(config, run[n], run[n + 1]); }
    }
  }

  lemma ClientConnects(config: Config, s: State, t: Task) returns (run: seq<State>)
    requires Sound(config) && Initial(s) && Feasible(config, s, t)
    ensures RunTo(config, run, s, With(s, t, Start(s, t).(phase := Idle), Connected(config, t), [], [], [], []))
  {
    var c := Start(s, t).(phase := Greeting);
    var k := Opened(config, t.client, 0, t.hello);
    run := [s];
    ConnectStep(config, s, t);
    run := OneStepMore(config, run, s, s, Connect(t.client, t.hello));
    ReceiveStep(config, s, t, c, k);
    run := OneStepMore(config, run, s, With(s, t, c, k, [], [], [], []), Receive(0, |k.up|));
    FirstFrameIsHandled(config, t, s);
    HandleStep(config, s, t, c, Delivered(k), Greeted(config, t), [], None);
    run := OneStepMore(config, run, s, With(s, t, c, Delivered(k), [], [], [], []), Handle(0, t.sessionId));
    GreetingStep(config, s, t);
    run := OneStepMore(config, run, s, With(s, t, c, Greeted(config, t), [], [], [], []), ReadGreeting(t.client));
  }

  lemma CommandArrives(config: Config, s: State, t: Task) returns (run: seq<State>)
    requires Sound(config) && Initial(s) && Feasible(config, s, t)
    ensures var command := [Queued(0, t.ItsRequest())];
      RunTo(config, run, s, With(s, t, Start(s, t).(phase := Awaiting(t.ItsRequest()), nextId := 1), Asked(config, t), command, command, [], []))
  {
    var c := Start(s, t).(phase := Awaiting(t.ItsRequest()), nextId := 1);
    var k := Extended(config.wire, Connected(config, t), t.ItsRequest());
    run := ClientConnects(config, s, t);
    InvokeStep(config, s, t);
    run := OneStepMore(config, run, s, With(s, t, Start(s, t).(phase := Idle), Connected(config, t), [], [], [], []),
                       Invoke(t.client, t.command, t.params, WriteDone));
    ReceiveStep(config, s, t, c, k);
    run := OneStepMore(config, run, s, With(s, t, c, k, [], [], [], []), Receive(0, |k.up|));
    RequestIsHandled(config, t, s);
    HandleStep(config, s, t, c, Delivered(k), Asked(config, t), [Queued(0, t.ItsRequest())], Some(t.ItsRequest()));
    run := OneStepMore(config, run, s, With(s, t, c, Delivered(k), [], [], [], []), Handle(0, t.sessionId));
  }

  /**
   From any initial state, for any client with the right credentials, any command within the limits and
   any way in which it ends, there is a run in which the client connects and asks for it, the agent
   executes it once, and the client is returned its result or its error, with its bytes.
  */
  lemma ACommandIsAnswered(config: Config, s: State, t: Task) returns (run: seq<State>)
    requires Sound(config) && Initial(s) && Feasible(config, s, t)
    ensures IsRun(config, run) && run[0] == s
    ensures var (last, command) := (run[|run| - 1], Queued(0, Request(1, t.command, t.params)));
      && last.executed == [Executed(command, t.outcome)] && last.pending == []
      && |last.returned| == 1 && last.returned[0].client == t.client && last.returned[0].request == command.request
      && Carries(last.returned[0].reply, 1, t.outcome)
  {
    var c := Start(s, t).(phase := Awaiting(t.ItsRequest()), nextId := 1);
    var arrived, done := [Queued(0, t.ItsRequest())], [Executed(Queued(0, t.ItsRequest()), t.outcome)];
    run := CommandArrives(config, s, t);
    ExecuteStep(config, s, t, c);
    run := OneStepMore(config, run, s, With(s, t, c, Asked(config, t), arrived, arrived, [], []), Execute(t.outcome));
    ReplyStep(config, s, t, arrived, done);
    run := OneStepMore(config, run, s, With(s, t, c, Replied(config, t), [], arrived, done, []), ReadReply(t.client));
  }

  // ---- No execution without an answer ---------------------------------------------------------------------

  /** While its connection is open, an executed command's answer is among what has been sent on it, unless it cannot be encoded. */
  ghost predicate AnsweredAt(config: Config, s: State, m: nat)
    requires m < |s.executed|
  {
    var (c, answer) := (s.executed[m].command.conn, AnswerOf(s.executed[m]));
    && c < |s.conns|
    && (s.conns[c].link.open && config.wire.encodeDown(answer.message).Some? ==> answer in s.conns[c].groups)
  }

  /** What is sent on a connection stays sent, and closed it stays closed. */
  predicate Later(k: Conn, k': Conn) {
    k.groups <= k'.groups && (k'.link.open ==> k.link.open)
  }

  lemma HandledLater(config: Config, k: Conn, sessionId: string)
    ensures Later(k, Handled(config, k, sessionId).0)
  {
  }

  lemma AnsweredLater(config: Config, k: Conn, g: Group)
    ensures Later(k, Answered(config, k, g))
    ensures k.link.open && config.wire.encodeDown(g.message).Some? ==> g in Answered(config, k, g).groups
  {
    if k.link.open && config.wire.encodeDown(g.message).Some? {
      var text := Encode(Frame(FrameType.Json, config.wire.encodeDown(g.message).value));
      assert text <= ResponseBytes(config.wire, g) && |text| >= 5;
      assert Answered(config, k, g).groups == k.groups + [g];
    }
  }

  lemma StepsLater(config: Config, s: State, step: Step, c: nat)
    requires Enabled(config, s, step) && c < |s.conns|
    ensures c < |Apply(config, s, step).conns| && Later(s.conns[c], Apply(config, s, step).conns[c])
  {
    match step
    case Handle(d, sessionId) => HandledLater(config, s.conns[d], sessionId);
    case Execute(outcome) =>
      var command := s.pending[0];
      AnsweredLater(config, s.conns[command.conn], AnswerTo(command.request.id, outcome));
    case _ =>
  }

  lemma ExecutedGrow(config: Config, s: State, step: Step)
    requires Enabled(config, s, step)
    ensures Apply(config, s, step).executed ==
      s.executed + if step.Execute? then [Executed(s.pending[0], step.outcome)] else []
  {
    assert s.executed + [] == s.executed;
  }

  lemma ExecutingAnswers(config: Config, s: State, outcome: Outcome)
    requires Enabled(config, s, Execute(outcome))
    ensures |Apply(config, s, Execute(outcome)).executed| == |s.executed| + 1
    ensures AnsweredAt(config, Apply(config, s, Execute(outcome)), |s.executed|)
  {
    var command := s.pending[0];
    AnsweredLater(config, s.conns[command.conn], AnswerTo(command.request.id, outcome));
  }

  lemma StepAnswers(config: Config, s: State, step: Step, m: nat)
    requires Enabled(config, s, step) && m < |Apply(config, s, step).executed|
    requires m < |s.executed| ==> AnsweredAt(config, s, m)
    ensures AnsweredAt(config, Apply(config, s, step), m)
  {
    ExecutedGrow(config, s, step);
    if m < |s.executed| {
      StepsLater(config, s, step, s.executed[m].command.conn);
    } else {
      ExecutingAnswers(config, s, step.outcome);
    }
  }

  /** In every run, whatever has been executed is answered on its connection, as long as that is open. */
  lemma {:induction false} EveryExecutionIsAnswered(config: Config, run: seq<State>, n: nat, m: nat)
    requires IsRun(config, run) && n < |run| && m < |run[n].executed|
    ensures AnsweredAt(config, run[n], m)
    decreases n
  {
    if n > 0 {
      assert Follows(config, run[n - 1], run[n - 1 + 1]);
      var step :| Enabled(config, run[n - 1], step) && run[n] == Apply(config, run[n - 1], step);
      if m < |run[n - 1].executed| { EveryExecutionIsAnswered(config, run, n - 1, m); }
      StepAnswers(config, run[n - 1], step, m);
    }
  }
}
