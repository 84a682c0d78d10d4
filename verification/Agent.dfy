/**
 The agent's network side: connections, the handshake gate and the command queue.

 `Link` is the value of a connection and `HandleNext` one turn of its parse loop; the classes
 are the objects of the source, proved to do exactly what those functions say.
*/
module Agent {
  import opened Wrappers
  import opened JsonValues
  import opened Framing
  import opened Messages
  import opened Groups
  import Decimal

  datatype Config = Config(wire: Wire, token: Option<Token>, device: Json)

  /**
   A connection as the agent sees it: the bytes received and not yet parsed, the handshake flag,
   whether it can still send, and everything it has sent.
  */
  datatype Link = Link(buffer: seq<Byte>, accepted: bool, sessionId: string, open: bool, outbox: seq<Byte>)

  const FRESH_LINK := Link([], false, "", true, [])

  /** Sending on a cancelled connection does nothing. */
  function Write(l: Link, data: seq<Byte>): Link {
    if l.open then l.(outbox := l.outbox + data) else l
  }

  function Post(wire: Wire, l: Link, g: Group): Link {
    Write(l, ResponseBytes(wire, g))
  }

  lemma PostInTwo(wire: Wire, l: Link, message: Down, binary: Option<seq<Byte>>)
    ensures Post(wire, l, Group(message, binary)) ==
      var first := Post(wire, l, Group(message, None));
      if binary.None? then first else Write(first, Encode(Frame(Binary, binary.value)))
  {
    if binary.Some? {
      var text := ResponseBytes(wire, Group(message, None));
      var data := Encode(Frame(Binary, binary.value));
      assert ResponseBytes(wire, Group(message, binary)) == text + data;
      assert l.outbox + (text + data) == l.outbox + text + data;
    }
  }

  // ---- The handshake -------------------------------------------------------------------------

  predicate IsUuid(s: string) {
    |s| == 36
  }

  function Welcoming(config: Config, sessionId: string): Group {
    Group(Welcome(PROTOCOL_VERSION, AGENT_VERSION, sessionId, config.device), None)
  }

  function FailureGroup(id: int, code: string, message: string): Group {
    Group(Answer(Failure(id, ErrorPayload(code, message, None))), None)
  }

  const MALFORMED_HANDSHAKE := FailureGroup(0, "PROTOCOL_ERROR", "Malformed handshake")
  const UNAUTHORIZED := FailureGroup(0, "UNAUTHORIZED", "Invalid or missing session token")
  const MALFORMED_REQUEST := FailureGroup(-1, "PROTOCOL_ERROR", "Malformed request payload")

  function UnsupportedVersion(version: Int64): Group {
    FailureGroup(0, "PROTOCOL_ERROR", "Unsupported protocol version " + Decimal.PrintInt(version)
                 + "; agent speaks " + Decimal.PrintInt(PROTOCOL_VERSION))
  }

  predicate Acceptable(config: Config, hello: Hello) {
    hello.protocolVersion == PROTOCOL_VERSION && IsTokenValid(config.token, hello.token)
  }

  function HandshakeAnswer(config: Config, payload: seq<Byte>, sessionId: string): Group {
    match config.wire.decodeHello(payload)
    case None => MALFORMED_HANDSHAKE
    case Some(hello) =>
      if hello.protocolVersion != PROTOCOL_VERSION then UnsupportedVersion(hello.protocolVersion)
      else if !IsTokenValid(config.token, hello.token) then UNAUTHORIZED
      else Welcoming(config, sessionId)
  }

  function Handshake(config: Config, l: Link, payload: seq<Byte>, sessionId: string): Link {
    var answer := HandshakeAnswer(config, payload, sessionId);
    if answer.message.Welcome?
    then Post(config.wire, l.(accepted := true, sessionId := sessionId), answer)
    else Post(config.wire, l, answer).(open := false)
  }

  /** What a peer has to present: version 1, and, to an agent that has a token, a token like it. */
  predicate Credentials(config: Config, hello: Hello) {
    && hello.protocolVersion == 1
    && (config.token.Some? ==> hello.token.Some? && Alike(hello.token.value, config.token.value))
  }

  lemma AcceptableIsCredentials(config: Config, hello: Hello)
    ensures Acceptable(config, hello) <==> Credentials(config, hello)
  {
    TokenTestIsPrefixTest(config.token, hello.token);
  }

  /**
   The gate opens for a payload that decodes to the right version and token, and for nothing else. Any
   other payload is answered by one failure, id 0, whose code tells a wrong token from all else, and
   closes the connection.
  */
  lemma GateOpensExactlyFor(config: Config, l: Link, payload: seq<Byte>, sessionId: string)
    requires !l.accepted
    ensures
      var hello := config.wire.decodeHello(payload);
      var after := Handshake(config, l, payload, sessionId);
      && (after.accepted <==> hello.Some? && Credentials(config, hello.value))
      && after.open == (l.open && after.accepted) && after.buffer == l.buffer
      && exists g: Group :: Greets(config, hello, sessionId, g)
           && after.outbox == if l.open then l.outbox + ResponseBytes(config.wire, g) else l.outbox
  {
    var hello, g := config.wire.decodeHello(payload), HandshakeAnswer(config, payload, sessionId);
    if hello.Some? { AcceptableIsCredentials(config, hello.value); }
    assert Greets(config, hello, sessionId, g);
  }

  /** The answer to a handshake: a welcome, or a failure with the code for what is wrong. */
  predicate Greets(config: Config, hello: Option<Hello>, sessionId: string, g: Group) {
    && g.binary.None?
    && if hello.Some? && Credentials(config, hello.value)
       then g.message == Welcome(1, AGENT_VERSION, sessionId, config.device)
       else IsFailure(g, 0, if hello.Some? && hello.value.protocolVersion == 1 then "UNAUTHORIZED" else "PROTOCOL_ERROR")
  }

  // ---- The parse loop ------------------------------------------------------------------------

  datatype Turn = Turn(link: Link, queued: Option<Request>, more: bool)

  function HandleFrame(config: Config, l: Link, f: Frame, sessionId: string): Turn {
    if f.kind != Json then Turn(l, None, true)
    else if !l.accepted then Turn(Handshake(config, l, f.payload, sessionId), None, true)
    else
      match config.wire.decodeRequest(f.payload)
      case Some(request) => Turn(l, Some(request), true)
      case None => Turn(Post(config.wire, l, MALFORMED_REQUEST), None, true)
  }

  /** One turn: take a frame off the buffer and act on it. `more` is false when the loop ends. */
  function HandleNext(config: Config, l: Link, sessionId: string): Turn {
    match ParseFrame(l.buffer)
    case Incomplete => Turn(l, None, false)
    case Malformed(_) => Turn(l.(open := false), None, false)
    case Parsed(f, rest) => HandleFrame(config, l.(buffer := rest), f, sessionId)
  }

  lemma TurnShrinksBuffer(config: Config, l: Link, sessionId: string)
    requires HandleNext(config, l, sessionId).more
    ensures |HandleNext(config, l, sessionId).link.buffer| + HEADER_SIZE <= |l.buffer|
  {
    ParsedIsEncoded(l.buffer);
  }

  /** The whole loop: the connection afterwards, and the requests queued, in order. */
  function HandleAll(config: Config, l: Link, sessionId: string): (Link, seq<Request>)
    decreases |l.buffer|
  {
    var turn := HandleNext(config, l, sessionId);
    if !turn.more then (turn.link, [])
    else
      TurnShrinksBuffer(config, l, sessionId);
      var (link, queued) := HandleAll(config, turn.link, sessionId);
      (link, AsList(turn.queued) + queued)
  }

  function AsList<T>(o: Option<T>): seq<T> {
    if o.Some? then [o.value] else []
  }

  /** From `start`, the loop has got to `now`, having queued `queued` on the way. */
  ghost predicate Reached(config: Config, start: Link, now: Link, queued: seq<Request>, sessionId: string) {
    var (link, rest) := HandleAll(config, now, sessionId);
    HandleAll(config, start, sessionId) == (link, queued + rest)
  }

  lemma ReachedAtStart(config: Config, start: Link, sessionId: string)
    ensures Reached(config, start, start, [], sessionId)
  {
    assert [] + HandleAll(config, start, sessionId).1 == HandleAll(config, start, sessionId).1;
  }

  lemma ReachedOneTurn(config: Config, start: Link, now: Link, queued: seq<Request>, sessionId: string)
    requires Reached(config, start, now, queued, sessionId)
    ensures var turn := HandleNext(config, now, sessionId);
      if turn.more then Reached(config, start, turn.link, queued + AsList(turn.queued), sessionId)
      else HandleAll(config, start, sessionId) == (turn.link, queued)
  {
    var turn := HandleNext(config, now, sessionId);
    if turn.more {
      TurnShrinksBuffer(config, now, sessionId);
      var rest := HandleAll(config, turn.link, sessionId).1;
      assert queued + (AsList(turn.queued) + rest) == queued + AsList(turn.queued) + rest;
    } else {
      assert queued + [] == queued;
    }
  }

  /** Requests are queued only past the gate: none comes out of the frame that opens it, nor before. */
  lemma NothingQueuedBeforeTheGate(config: Config, l: Link, sessionId: string)
    ensures HandleNext(config, l, sessionId).queued.Some? ==> l.accepted
    ensures l.accepted ==> HandleNext(config, l, sessionId).link.accepted
  {
  }

  /**
   Before the gate nothing is queued, a binary frame is passed over, and the first JSON frame decides:
   the connection is accepted and welcomed if it presents the credentials; any other is answered by one
   failure and closes it, as does a bad frame, unanswered.
  */
  lemma BeforeTheGate(config: Config, l: Link, sessionId: string)
    requires !l.accepted
    ensures var (parse, turn) := (ParseFrame(l.buffer), HandleNext(config, l, sessionId));
      var hello := if parse.Parsed? && parse.frame.kind == Json then config.wire.decodeHello(parse.frame.payload) else None;
      && turn.more == parse.Parsed? && turn.queued.None?
      && turn.link.buffer == (if parse.Parsed? then parse.rest else l.buffer)
      && (turn.link.accepted <==> hello.Some? && Credentials(config, hello.value))
      && turn.link.open == (l.open && (parse.Incomplete? || turn.link.accepted || (parse.Parsed? && parse.frame.kind != Json)))
      && if parse.Parsed? && parse.frame.kind == Json && l.open
         then exists g: Group :: Greets(config, hello, sessionId, g) && turn.link.outbox == l.outbox + ResponseBytes(config.wire, g)
         else turn.link.outbox == l.outbox
  {
    var parse := ParseFrame(l.buffer);
    if parse.Parsed? && parse.frame.kind == Json {
      GateOpensExactlyFor(config, l.(buffer := parse.rest), parse.frame.payload, sessionId);
    }
  }

  /**
   Past the gate only a bad frame closes the connection. A binary frame is passed over; a request that
   does not decode costs one failure, id -1, and is not queued; any other is queued and answered by
   nothing yet.
  */
  lemma OnlyABadFrameCloses(config: Config, l: Link, sessionId: string)
    requires l.accepted
    ensures var (parse, turn) := (ParseFrame(l.buffer), HandleNext(config, l, sessionId));
      && turn.more == parse.Parsed?
      && turn.link.open == (l.open && !parse.Malformed?)
      && turn.link.buffer == (if parse.Parsed? then parse.rest else l.buffer)
      && turn.queued == (if parse.Parsed? && parse.frame.kind == Json then config.wire.decodeRequest(parse.frame.payload) else None)
      && if parse.Parsed? && parse.frame.kind == Json && turn.queued.None? && l.open
         then exists g: Group :: IsFailure(g, -1, "PROTOCOL_ERROR") && turn.link.outbox == l.outbox + ResponseBytes(config.wire, g)
         else turn.link.outbox == l.outbox
  {
    assert IsFailure(MALFORMED_REQUEST, -1, "PROTOCOL_ERROR");
  }

  predicate IsFailure(g: Group, id: int, code: string) {
    && g.binary.None? && g.message.Answer? && g.message.reply.id == id && !g.message.reply.success
    && g.message.reply.error.Some? && g.message.reply.error.value.code == code
  }

  // ---- The objects ---------------------------------------------------------------------------

  class AgentConnection {
    const codec: FrameCodec
    var isHandshakeComplete: bool
    var sessionId: string
    var isOpen: bool
    var outbox: seq<Byte>

    constructor ()
      ensures fresh(codec) && Value() == FRESH_LINK
    {
      codec := new FrameCodec();
      isHandshakeComplete, sessionId, isOpen, outbox := false, "", true, [];
    }

    function Value(): Link
      reads this, codec
    {
      Link(codec.buffer, isHandshakeComplete, sessionId, isOpen, outbox)
    }

    /** Everything but the parse buffer is as in `l`. */
    predicate Sent(l: Link)
      reads this
    {
      isHandshakeComplete == l.accepted && sessionId == l.sessionId && isOpen == l.open && outbox == l.outbox
    }

    method MarkHandshakeComplete(sessionId: string)
      modifies this
      ensures Value() == old(Value()).(accepted := true, sessionId := sessionId)
    {
      isHandshakeComplete := true;
      this.sessionId := sessionId;
    }

    method SendFrame(f: Frame)
      requires |f.payload| < 0x1_0000_0000
      modifies this
      ensures Value() == Write(old(Value()), Encode(f))
    {
      if isOpen {
        var data := EncodeFrame(f);
        outbox := outbox + data;
      }
    }

    method SendJson(wire: Wire, message: Down)
      requires wire.encodeDown(message).Some? ==> |wire.encodeDown(message).value| < 0x1_0000_0000
      modifies this
      ensures Value() == Post(wire, old(Value()), Group(message, None))
    {
      var text := wire.encodeDown(message);
      if text.Some? {
        SendFrame(Frame(Json, text.value));
        assert ResponseBytes(wire, Group(message, None)) == Encode(Frame(Json, text.value));
      } else {
        assert outbox + [] == outbox;
      }
    }

    /** The reply, then its attachment if it has one. */
    method SendResponse(wire: Wire, reply: Reply, binary: Option<seq<Byte>>)
      requires wire.encodeDown(Answer(reply)).Some? ==> |wire.encodeDown(Answer(reply)).value| < 0x1_0000_0000
      requires binary.Some? ==> |binary.value| < 0x1_0000_0000
      modifies this
      ensures Value() == Post(wire, old(Value()), Group(Answer(reply), binary))
    {
      SendJson(wire, Answer(reply));
      if binary.Some? {
        SendFrame(Frame(Binary, binary.value));
      }
      PostInTwo(wire, old(Value()), Answer(reply), binary);
    }

    method Close()
      modifies this
      ensures Value() == old(Value()).(open := false)
    {
      isOpen := false;
    }
  }

  datatype PendingCommand = PendingCommand(request: Request, connection: AgentConnection)

  /** Every message the network side itself sends can be sent. The handshake answers are fixed texts. */
  ghost predicate Serviceable(config: Config) {
    && (forall sessionId: string :: IsUuid(sessionId) ==> config.wire.Fits(Welcoming(config, sessionId).message))
    && (forall version: Int64 :: config.wire.Fits(UnsupportedVersion(version).message))
    && config.wire.Fits(MALFORMED_HANDSHAKE.message)
    && config.wire.Fits(UNAUTHORIZED.message)
    && config.wire.Fits(MALFORMED_REQUEST.message)
  }

  /** The commands of a batch of requests from one connection. */
  function From(connection: AgentConnection, requests: seq<Request>): seq<PendingCommand> {
    seq(|requests|, i requires 0 <= i < |requests| => PendingCommand(requests[i], connection))
  }

  lemma FromAppend(connection: AgentConnection, a: seq<Request>, b: seq<Request>)
    ensures From(connection, a + b) == From(connection, a) + From(connection, b)
  {
  }

  /**
   The groups that executing the first `n` commands of a queue sends to one connection, in order.
   `router(k, request)` is how the handler of the k-th command ends: any behaviour of the device.
  */
  function AnswersFor(connection: AgentConnection, queue: seq<PendingCommand>,
                      router: (nat, Request) -> Outcome, n: nat): seq<Group>
    requires n <= |queue|
  {
    if n == 0 then []
    else
      var earlier := AnswersFor(connection, queue, router, n - 1);
      var command := queue[n - 1];
      if command.connection == connection
      then earlier + [AnswerTo(command.request.id, router(n - 1, command.request))]
      else earlier
  }

  predicate Encodable(wire: Wire, id: int, outcome: Outcome) {
    var g := AnswerTo(id, outcome);
    && (wire.encodeDown(g.message).Some? ==> |wire.encodeDown(g.message).value| < 0x1_0000_0000)
    && (g.binary.Some? ==> |g.binary.value| < 0x1_0000_0000)
  }

  function Without(connections: seq<AgentConnection>, gone: AgentConnection): (r: seq<AgentConnection>)
    ensures gone !in r
    ensures forall c <- connections :: c != gone ==> c in r
  {
    if connections == [] then []
    else
      var last := connections[|connections| - 1];
      assert connections == connections[..|connections| - 1] + [last];
      Without(connections[..|connections| - 1], gone) + if last == gone then [] else [last]
  }

  lemma {:induction false} WithoutAbsent(connections: seq<AgentConnection>, gone: AgentConnection)
    requires gone !in connections
    ensures Without(connections, gone) == connections
    decreases |connections|
  {
    if connections != [] {
      var front := connections[..|connections| - 1];
      WithoutAbsent(front, gone);
      assert connections == front + [connections[|connections| - 1]];
    }
  }

  /** The others stay as often and in the order they were: of two parts of a list each stays by itself. */
  lemma {:induction false} WithoutInParts(a: seq<AgentConnection>, b: seq<AgentConnection>, gone: AgentConnection)
    ensures Without(a + b, gone) == Without(a, gone) + Without(b, gone)
    decreases |b|
  {
    if b == [] {
      assert a + b == a && Without(a, gone) + [] == Without(a, gone);
    } else {
      var front, last := b[..|b| - 1], b[|b| - 1];
      assert (a + b)[..|a + b| - 1] == a + front && (a + b)[|a + b| - 1] == last;
      WithoutInParts(a, front, gone);
      var kept := if last == gone then [] else [last];
      assert Without(a, gone) + (Without(front, gone) + kept) == Without(a, gone) + Without(front, gone) + kept;
    }
  }

  class CommandServer {
    const config: Config
    var pending: seq<PendingCommand>
    var connections: seq<AgentConnection>

    constructor (config: Config)
      ensures this.config == config && pending == [] && connections == []
    {
      this.config, pending, connections := config, [], [];
    }

    method Accept() returns (connection: AgentConnection)
      modifies this`connections
      ensures fresh(connection) && fresh(connection.codec) && connection.Value() == FRESH_LINK
      ensures connections == old(connections) + [connection]
    {
      connection := new AgentConnection();
      connections := connections + [connection];
    }

    method PerformHandshake(payload: seq<Byte>, connection: AgentConnection, sessionId: string)
      requires Serviceable(config) && IsUuid(sessionId)
      modifies connection
      ensures connection.Value() == Handshake(config, old(connection.Value()), payload, sessionId)
    {
      match config.wire.decodeHello(payload)
      case None =>
        connection.SendJson(config.wire, MALFORMED_HANDSHAKE.message);
        connection.Close();
      case Some(hello) =>
        if hello.protocolVersion != PROTOCOL_VERSION {
          assert config.wire.Fits(UnsupportedVersion(hello.protocolVersion).message);
          connection.SendJson(config.wire, UnsupportedVersion(hello.protocolVersion).message);
          connection.Close();
        } else if !IsTokenValid(config.token, hello.token) {
          connection.SendJson(config.wire, UNAUTHORIZED.message);
          connection.Close();
        } else {
          connection.MarkHandshakeComplete(sessionId);
          assert config.wire.Fits(Welcoming(config, sessionId).message);
          connection.SendJson(config.wire, Welcoming(config, sessionId).message);
        }
    }

    method Handle(f: Frame, connection: AgentConnection, sessionId: string)
      requires Serviceable(config) && IsUuid(sessionId)
      modifies this`pending, connection
      ensures var turn := HandleFrame(config, old(connection.Value()), f, sessionId);
        && connection.Value() == turn.link
        && pending == old(pending) + From(connection, AsList(turn.queued))
    {
      if f.kind != Json { return; }
      if !connection.isHandshakeComplete {
        PerformHandshake(f.payload, connection, sessionId);
        return;
      }
      match config.wire.decodeRequest(f.payload)
      case Some(request) => pending := pending + [PendingCommand(request, connection)];
      case None => connection.SendJson(config.wire, MALFORMED_REQUEST.message);
    }

    /** One turn of the parse loop. */
    method HandleOne(connection: AgentConnection, sessionId: string) returns (more: bool, failed: bool)
      requires Serviceable(config) && IsUuid(sessionId)
      modifies this`pending, connection, connection.codec
      ensures var turn := HandleNext(config, old(connection.Value()), sessionId);
        && connection.Value() == turn.link
        && pending == old(pending) + From(connection, AsList(turn.queued))
        && more == turn.more
      ensures failed == ParseFrame(old(connection.codec.buffer)).Malformed?
      ensures failed ==> !more && !connection.isOpen
    {
      assert pending + From(connection, []) == pending;
      var r := connection.codec.NextFrame();
      match r
      case Err(_) =>
        connection.Close();
        return false, true;
      case Ok(None) =>
        return false, false;
      case Ok(Some(f)) =>
        Handle(f, connection, sessionId);
        return true, false;
    }

    /** The parse loop: handles every whole frame in the buffer. */
    method DrainBuffer(connection: AgentConnection, sessionId: string) returns (failed: bool)
      requires Serviceable(config) && IsUuid(sessionId)
      modifies this`pending, connection, connection.codec
      ensures var after := HandleAll(config, old(connection.Value()), sessionId);
        && connection.Value() == after.0
        && pending == old(pending) + From(connection, after.1)
      ensures failed ==> !connection.isOpen
      ensures failed == ParseFrame(connection.codec.buffer).Malformed?
    {
      ghost var start := connection.Value();
      ghost var queued: seq<Request> := [];
      ReachedAtStart(config, start, sessionId);
      var more := true;
      failed := false;
      while more
        invariant pending == old(pending) + From(connection, queued)
        invariant if more then Reached(config, start, connection.Value(), queued, sessionId)
                  else HandleAll(config, start, sessionId) == (connection.Value(), queued)
        invariant failed ==> !more && !connection.isOpen
        invariant !more ==> failed == ParseFrame(connection.codec.buffer).Malformed?
        decreases more, |connection.codec.buffer|
      {
        ghost var now := connection.Value();
        ghost var batch := AsList(HandleNext(config, now, sessionId).queued);
        ReachedOneTurn(config, start, now, queued, sessionId);
        if HandleNext(config, now, sessionId).more { TurnShrinksBuffer(config, now, sessionId); }
        more, failed := HandleOne(connection, sessionId);
        if more {
          FromAppend(connection, queued, batch);
          queued := queued + batch;
        }
      }
    }

    /** A delivery from the network: append it, then handle every whole frame. */
    method Receive(connection: AgentConnection, data: seq<Byte>, ended: bool, sessionId: string)
      requires Serviceable(config) && IsUuid(sessionId)
      modifies this, connection, connection.codec
      ensures var before := old(connection.Value());
        var after := if data == [] then (before, [])
                     else HandleAll(config, before.(buffer := before.buffer + data), sessionId);
        && connection.Value() == (if ended then after.0.(open := false) else after.0)
        && pending == old(pending) + From(connection, after.1)
      ensures connections == if ended && (data == [] || !ParseFrame(connection.codec.buffer).Malformed?)
                             then Without(old(connections), connection) else old(connections)
    {
      if data != [] {
        connection.codec.Append(data);
        var failed := DrainBuffer(connection, sessionId);
        if failed { return; }
      }
      if ended {
        Remove(connection);
        connection.Close();
      }
    }

    /** `removeAll`: the others stay, in their order. */
    method Remove(connection: AgentConnection)
      modifies this`connections
      ensures connections == Without(old(connections), connection)
    {
      var kept: seq<AgentConnection> := [];
      for i := 0 to |connections|
        invariant kept == Without(connections[..i], connection)
      {
        assert connections[..i + 1][..i] == connections[..i];
        if connections[i] != connection { kept := kept + [connections[i]]; }
      }
      assert connections[..|connections|] == connections;
      connections := kept;
    }

    method Dequeue() returns (r: Option<PendingCommand>)
      modifies this`pending
      ensures old(pending) == [] ==> r == None && pending == []
      ensures old(pending) != [] ==> r == Some(old(pending)[0]) && pending == old(pending)[1..]
    {
      if pending == [] { return None; }
      r := Some(pending[0]);
      pending := pending[1..];
    }
  }

  /** Whatever the number of groups, a closed connection sends none of them. */
  function PostAll(wire: Wire, l: Link, gs: seq<Group>): Link {
    Write(l, GroupBytes(wire, gs))
  }

  lemma PostOneMore(wire: Wire, l: Link, gs: seq<Group>, g: Group)
    ensures PostAll(wire, l, gs + [g]) == Post(wire, PostAll(wire, l, gs), g)
  {
    GroupBytesAppend(wire, gs, [g]);
    assert GroupBytes(wire, [g]) == ResponseBytes(wire, g) + [];
    assert l.outbox + (GroupBytes(wire, gs) + ResponseBytes(wire, g)) == l.outbox + GroupBytes(wire, gs) + ResponseBytes(wire, g);
  }

  /**
   The XCTest thread's loop: the queue is executed from its head until it is empty, and each
   connection is sent the answers to its own commands, in order, and nothing else.
  */
  method ServePending(server: CommandServer, router: (nat, Request) -> Outcome, ghost owners: set<AgentConnection>)
    requires forall p <- server.pending :: p.connection in owners
    requires forall k :: 0 <= k < |server.pending| ==>
      Encodable(server.config.wire, server.pending[k].request.id, router(k, server.pending[k].request))
    modifies server`pending, owners
    ensures server.pending == []
    ensures forall c <- owners ::
      c.Sent(PostAll(server.config.wire, old(c.Value()),
                     AnswersFor(c, old(server.pending), router, |old(server.pending)|)))
  {
    var wire := server.config.wire;
    ghost var queue := server.pending;
    ghost var start := map c <- owners :: c.Value();
    var executed := 0;
    ServedAtStart(wire, start, queue, router);
    while server.pending != []
      invariant executed + |server.pending| == |queue| && server.pending == queue[executed..]
      invariant Served(wire, start, queue, router, executed)
      decreases |server.pending|
    {
      ExecuteNext(server, start, queue, router, executed);
      executed := executed + 1;
    }
  }

  ghost predicate Served(wire: Wire, start: map<AgentConnection, Link>, queue: seq<PendingCommand>,
                         router: (nat, Request) -> Outcome, n: nat)
    requires n <= |queue|
    reads start.Keys
  {
    forall c <- start.Keys :: c.Sent(PostAll(wire, start[c], AnswersFor(c, queue, router, n)))
  }

  lemma ServedAtStart(wire: Wire, start: map<AgentConnection, Link>, queue: seq<PendingCommand>,
                      router: (nat, Request) -> Outcome)
    requires forall c <- start.Keys :: start[c] == c.Value()
    ensures Served(wire, start, queue, router, 0)
  {
    forall c <- start.Keys ensures PostAll(wire, c.Value(), []) == c.Value() {
      assert c.outbox + [] == c.outbox;
    }
  }

  /** Takes the command at the head of the queue, executes it and answers it on its own connection. */
  method ExecuteNext(server: CommandServer, ghost start: map<AgentConnection, Link>, ghost queue: seq<PendingCommand>,
                     router: (nat, Request) -> Outcome, n: nat)
    requires n < |queue| && server.pending == queue[n..] && queue[n].connection in start
    requires Encodable(server.config.wire, queue[n].request.id, router(n, queue[n].request))
    requires Served(server.config.wire, start, queue, router, n)
    modifies server`pending, queue[n].connection
    ensures server.pending == queue[n + 1..]
    ensures Served(server.config.wire, start, queue, router, n + 1)
  {
    var next := server.Dequeue();
    var c := next.value.connection;
    var (reply, binary) := Respond(next.value.request.id, router(n, next.value.request));
    PostOneMore(server.config.wire, start[c], AnswersFor(c, queue, router, n), Group(Answer(reply), binary));
    c.SendResponse(server.config.wire, reply, binary);
    assert c.Sent(PostAll(server.config.wire, start[c], AnswersFor(c, queue, router, n + 1)));
  }
}
