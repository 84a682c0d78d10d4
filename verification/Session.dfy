/**
 The whole protocol as a step system: any number of SDK clients, any number of other peers, one
 agent with two threads, and a network that delivers in chunks of any size and fails at any time.

 A state holds what the real parties hold, plus history fields, marked as such, that no step
 consults. `Apply` says what a step does and `Enabled` when it can happen; theorems about every
 run are in module `SessionTheorems`.
*/
module Session {
  import opened Wrappers
  import opened JsonValues
  import opened Framing
  import opened Messages
  import opened Groups
  import opened Agent

  datatype Conn = Conn(
    owner: Option<nat>,         // the client that opened it; `None` for any other peer
    up: seq<Byte>,              // written by the peer, not yet received by the agent
    link: Link,                 // the agent's side
    consumed: nat,              // how much of `link.outbox` the peer has read
    // history
    base: nat,                  // the owner's id counter when the connection was opened
    asked: seq<Request>,        // every request the owner has written on it
    unhandled: seq<Written>,    // what the owner has written and the agent not yet handled
    groups: seq<Group>,         // everything the agent has sent, in order
    read: nat,                  // how many of those the owner has read
    credentials: Option<Hello>) // the handshake that was accepted

  datatype Phase = Offline | Greeting | Idle | Awaiting(request: Request)

  /** One `IOSControllerClient`, used by one caller at a time. */
  datatype Client = Client(protocolVersion: Int64, token: Option<Token>, nextId: nat, phase: Phase, at: nat)

  datatype Queued = Queued(conn: nat, request: Request)
  datatype Executed = Executed(command: Queued, outcome: Outcome)
  datatype Returned = Returned(client: nat, conn: nat, request: Request, reply: Group)

  datatype State = State(
    clients: seq<Client>,
    conns: seq<Conn>,
    pending: seq<Queued>,
    // history
    arrived: seq<Queued>,
    executed: seq<Executed>,
    returned: seq<Returned>)

  datatype Step =
    | Connect(client: nat, hello: Hello)
    | ReadGreeting(client: nat)
    | Invoke(client: nat, command: string, params: Json, result: WriteResult)
    | ReadReply(client: nat)
    | GiveUp(client: nat)       // the deadline passes after a discarded reply; the socket stays
    | Drop(client: nat)         // a read times out or fails, or the caller closes
    | Receive(conn: nat, size: nat)
    | Handle(conn: nat, sessionId: string)
    | Execute(outcome: Outcome)
    | Cancel(conn: nat, kept: nat) // the agent's end closes; bytes not yet read may be lost
    | PeerOpens
    | PeerWrites(conn: nat, bytes: seq<Byte>)

  // ---- The SDK's side -------------------------------------------------------------------------

  function Unread(k: Conn): seq<Byte>
    requires k.consumed <= |k.link.outbox|
  {
    k.link.outbox[k.consumed..]
  }

  function Opened(config: Config, owner: nat, nextId: nat, hello: Hello): Conn {
    Conn(Some(owner), Encode(UpFrame(config.wire, WroteHello(hello))), FRESH_LINK, 0,
         nextId, [], [WroteHello(hello)], [], 0, None)
  }

  /** The connection with one more request written on it. */
  function Extended(wire: Wire, k: Conn, request: Request): Conn {
    k.(up := k.up + Encode(UpFrame(wire, WroteRequest(request))), asked := k.asked + [request],
       unhandled := k.unhandled + [WroteRequest(request)])
  }

  function Consume(wire: Wire, k: Conn, g: Group): Conn {
    k.(consumed := k.consumed + |ResponseBytes(wire, g)|, read := k.read + 1)
  }

  // ---- Enabled ----------------------------------------------------------------------------------

  /** The reply to a command can be written, within the limits; or there is nothing to write. */
  predicate Deliverable(wire: Wire, g: Group) {
    && (wire.encodeDown(g.message).Some? ==> wire.Fits(g.message))
    && (wire.encodeDown(g.message).None? ==> g.binary.None?)
    && (g.binary.Some? ==> |g.binary.value| <= MAX_PAYLOAD_SIZE)
  }

  predicate Reading(s: State, i: nat) {
    && i < |s.clients| && s.clients[i].at < |s.conns|
    && s.conns[s.clients[i].at].consumed <= |s.conns[s.clients[i].at].link.outbox|
  }

  predicate Enabled(config: Config, s: State, step: Step) {
    match step
    case Connect(i, hello) =>
      && i < |s.clients|
      && !s.clients[i].phase.Awaiting? && !s.clients[i].phase.Greeting?
      && hello.protocolVersion == s.clients[i].protocolVersion && hello.token == s.clients[i].token
      && Sendable(UpFrame(config.wire, WroteHello(hello)))
    case ReadGreeting(i) =>
      && Reading(s, i) && s.clients[i].phase.Greeting?
      && !ReadGroup(config.wire, Unread(s.conns[s.clients[i].at])).Waiting?
    case Invoke(i, _, _, _) =>
      && i < |s.clients| && s.clients[i].phase.Idle? && s.clients[i].at < |s.conns|
      && FitsInt64(s.clients[i].nextId + 1)
    case ReadReply(i) =>
      && Reading(s, i) && s.clients[i].phase.Awaiting?
      && !ReadGroup(config.wire, Unread(s.conns[s.clients[i].at])).Waiting?
    case GiveUp(i) => i < |s.clients| && s.clients[i].phase.Awaiting?
    case Drop(i) => i < |s.clients|
    case Receive(c, size) => c < |s.conns| && s.conns[c].link.open && 0 < size <= |s.conns[c].up|
    case Handle(c, sessionId) => c < |s.conns| && IsUuid(sessionId)
    case Execute(outcome) =>
      && s.pending != [] && s.pending[0].conn < |s.conns|
      && Deliverable(config.wire, AnswerTo(s.pending[0].request.id, outcome))
    case Cancel(c, kept) =>
      c < |s.conns| && s.conns[c].consumed <= kept <= |s.conns[c].link.outbox|
    case PeerOpens => true
    case PeerWrites(c, _) => c < |s.conns| && s.conns[c].owner.None?
  }

  // ---- Apply ------------------------------------------------------------------------------------

  function Apply(config: Config, s: State, step: Step): State
    requires Enabled(config, s, step)
  {
    match step
    case Connect(i, hello) => ApplyConnect(config, s, i, hello)
    case ReadGreeting(i) => ApplyReadGreeting(config, s, i)
    case Invoke(i, command, params, result) => ApplyInvoke(config, s, i, command, params, result)
    case ReadReply(i) => ApplyReadReply(config, s, i)
    case GiveUp(i) => SetPhase(s, i, Idle)
    case Drop(i) => SetPhase(s, i, Offline)
    case Receive(c, size) => ApplyReceive(s, c, size)
    case Handle(c, sessionId) => ApplyHandle(config, s, c, sessionId)
    case Execute(outcome) => ApplyExecute(config, s, outcome)
    case Cancel(c, kept) =>
      var k := s.conns[c];
      SetConn(s, c, k.(link := k.link.(open := false, outbox := k.link.outbox[..kept])))
    case PeerOpens =>
      s.(conns := s.conns + [Conn(None, [], FRESH_LINK, 0, 0, [], [], [], 0, None)])
    case PeerWrites(c, bytes) => SetConn(s, c, s.conns[c].(up := s.conns[c].up + bytes))
  }

  function SetPhase(s: State, i: nat, phase: Phase): State
    requires i < |s.clients|
  {
    s.(clients := s.clients[i := s.clients[i].(phase := phase)])
  }

  function SetConn(s: State, c: nat, k: Conn): State
    requires c < |s.conns|
  {
    s.(conns := s.conns[c := k])
  }

  /** A new socket, the handshake written on it. A socket the client still had is abandoned. */
  function ApplyConnect(config: Config, s: State, i: nat, hello: Hello): State
    requires i < |s.clients|
  {
    var c := s.clients[i];
    s.(clients := s.clients[i := c.(phase := Greeting, at := |s.conns|)],
       conns := s.conns + [Opened(config, i, c.nextId, hello)])
  }

  function ApplyReadGreeting(config: Config, s: State, i: nat): State
    requires Reading(s, i)
  {
    var at := s.clients[i].at;
    match ReadGroup(config.wire, Unread(s.conns[at]))
    case Got(g, _) => SetPhase(SetConn(s, at, Consume(config.wire, s.conns[at], g)), i, Idle)
    case _ => SetPhase(s, i, Idle)
  }

  /** The counter moves before anything is written, whatever then happens to the write. */
  function ApplyInvoke(config: Config, s: State, i: nat, command: string, params: Json, result: WriteResult): State
    requires i < |s.clients| && s.clients[i].at < |s.conns|
  {
    var c := s.clients[i].(nextId := s.clients[i].nextId + 1);
    var request := Request(c.nextId, command, params);
    var phase := if !Sendable(UpFrame(config.wire, WroteRequest(request))) || result.WriteTimedOut? then Idle
                 else if result.WriteBroken? then Offline
                 else Awaiting(request);
    s.(clients := s.clients[i := c.(phase := phase)],
       conns := if phase.Awaiting? then s.conns[c.at := Extended(config.wire, s.conns[c.at], request)] else s.conns)
  }

  /** One turn of the correlation loop: the awaited reply is returned, any other is discarded. */
  function ApplyReadReply(config: Config, s: State, i: nat): State
    requires Reading(s, i) && s.clients[i].phase.Awaiting?
  {
    var at := s.clients[i].at;
    var request := s.clients[i].phase.request;
    match ReadGroup(config.wire, Unread(s.conns[at]))
    case Got(g, _) =>
      var next := SetConn(s, at, Consume(config.wire, s.conns[at], g));
      if g.message.Id() == request.id
      then SetPhase(next.(returned := s.returned + [Returned(i, at, request, g)]), i, Idle)
      else next
    case _ => SetPhase(s, i, Idle)
  }

  function ApplyReceive(s: State, c: nat, size: nat): State
    requires c < |s.conns| && size <= |s.conns[c].up|
  {
    var k := s.conns[c];
    SetConn(s, c, k.(up := k.up[size..], link := k.link.(buffer := k.link.buffer + k.up[..size])))
  }

  /** The group that one turn of the parse loop sends, if it sends one. */
  function SentByTurn(config: Config, l: Link, sessionId: string): Option<Group> {
    match ParseFrame(l.buffer)
    case Parsed(f, _) =>
      if f.kind != Json then None
      else if !l.accepted then Some(HandshakeAnswer(config, f.payload, sessionId))
      else if config.wire.decodeRequest(f.payload).None? then Some(MALFORMED_REQUEST)
      else None
    case _ => None
  }

  /** History: what has been sent, unless the connection could not send. */
  function Record(k: Conn, l: Link, g: Group): seq<Group> {
    if k.link.open && l.outbox != k.link.outbox then k.groups + [g] else k.groups
  }

  /** One turn of the parse loop on a connection, and the request it queues, if it queues one. */
  function Handled(config: Config, k: Conn, sessionId: string): (Conn, Option<Request>) {
    var turn := HandleNext(config, k.link, sessionId);
    var sent := SentByTurn(config, k.link, sessionId);
    var hello := if turn.more then config.wire.decodeHello(ParseFrame(k.link.buffer).frame.payload) else None;
    (k.(link := turn.link,
        unhandled := if turn.more && k.unhandled != [] then k.unhandled[1..] else k.unhandled,
        groups := if sent.Some? then Record(k, turn.link, sent.value) else k.groups,
        credentials := if turn.link.accepted && !k.link.accepted then hello else k.credentials),
     turn.queued)
  }

  function ApplyHandle(config: Config, s: State, c: nat, sessionId: string): State
    requires c < |s.conns|
  {
    var (k, request) := Handled(config, s.conns[c], sessionId);
    var batch := if request.Some? then [Queued(c, request.value)] else [];
    SetConn(s, c, k).(pending := s.pending + batch, arrived := s.arrived + batch)
  }

  function Answered(config: Config, k: Conn, g: Group): Conn {
    var link := Post(config.wire, k.link, g);
    k.(link := link, groups := Record(k, link, g))
  }

  /** The command at the head of the queue is executed, and its answer sent on its own connection. */
  function ApplyExecute(config: Config, s: State, outcome: Outcome): State
    requires s.pending != [] && s.pending[0].conn < |s.conns|
  {
    var command := s.pending[0];
    var k := Answered(config, s.conns[command.conn], AnswerTo(command.request.id, outcome));
    SetConn(s, command.conn, k)
      .(pending := s.pending[1..], executed := s.executed + [Executed(command, outcome)])
  }

  // ---- Runs ---------------------------------------------------------------------------------------

  predicate Initial(s: State) {
    && (forall i :: 0 <= i < |s.clients| ==> s.clients[i].nextId == 0 && s.clients[i].phase == Offline)
    && s.conns == [] && s.pending == [] && s.arrived == [] && s.executed == [] && s.returned == []
  }

  /** `run` is a sequence of states, each the result of some enabled step in the one before. */
  ghost predicate IsRun(config: Config, run: seq<State>) {
    && run != [] && Initial(run[0])
    && forall n :: 0 <= n < |run| - 1 ==> Follows(config, run[n], run[n + 1])
  }

  ghost predicate Follows(config: Config, s: State, next: State) {
    exists step :: Enabled(config, s, step) && next == Apply(config, s, step)
  }
}
