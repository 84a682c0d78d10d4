/** Each kind of step keeps the invariant: first for the connection it touches, then for the state. */
module SessionSteps {
  import opened Wrappers
  import opened Framing
  import opened Messages
  import opened Groups
  import opened Agent
  import opened Session
  import opened SessionInvariant

  // ---- The agent parses -----------------------------------------------------------------------

  lemma UpFramesHead(wire: Wire, ws: seq<Written>)
    requires ws != []
    ensures UpFrames(wire, ws) == [UpFrame(wire, ws[0])] + UpFrames(wire, ws[1..])
    ensures EncodeAll(UpFrames(wire, ws)) == Encode(UpFrame(wire, ws[0])) + EncodeAll(UpFrames(wire, ws[1..]))
  {
    assert UpFrames(wire, ws)[1..] == UpFrames(wire, ws[1..]);
  }

  /** What the buffer holds, if it holds a whole frame, is the first thing written and not yet handled. */
  lemma BufferHoldsTheNext(wire: Wire, k: Conn)
    requires UpInv(wire, k)
    ensures var p := ParseFrame(k.link.buffer);
      && !p.Malformed?
      && (p.Parsed? ==>
        && k.unhandled != []
        && p.frame == UpFrame(wire, k.unhandled[0])
        && p.rest + k.up == EncodeAll(UpFrames(wire, k.unhandled[1..])))
  {
    ParseStable(k.link.buffer, k.up);
    if k.unhandled == [] {
      assert k.link.buffer == [];
    } else {
      UpFramesHead(wire, k.unhandled);
      ParseEncoded(UpFrame(wire, k.unhandled[0]), EncodeAll(UpFrames(wire, k.unhandled[1..])));
    }
  }

  /** Adding a well-formed group at the end, or losing it because the connection is closed. */
  lemma PostKeepsDown(config: Config, k: Conn, g: Group)
    requires DownInv(config.wire, k) && WellFormed(config.wire, g)
    ensures var k' := Answered(config, k, g);
      && DownInv(config.wire, k')
      && k'.groups == if k.link.open then k.groups + [g] else k.groups
  {
    var wire := config.wire;
    var k' := Answered(config, k, g);
    if k.link.open {
      GroupBytesAppend(wire, k.groups, [g]);
      assert GroupBytes(wire, [g]) == ResponseBytes(wire, g) + [];
      assert |ResponseBytes(wire, g)| > 0;
      assert (k.groups + [g])[..k.read] == k.groups[..k.read];
    }
  }

  /** A group that cannot be encoded, and has no attachment, leaves no trace. */
  lemma PostNothing(config: Config, k: Conn, g: Group)
    requires config.wire.encodeDown(g.message).None? && g.binary.None?
    ensures Answered(config, k, g) == k
  {
    assert k.link.outbox + [] == k.link.outbox;
  }

  lemma HandshakeAnswersFit(config: Config, payload: seq<Byte>, sessionId: string)
    requires Sound(config) && IsUuid(sessionId)
    ensures WellFormed(config.wire, HandshakeAnswer(config, payload, sessionId))
    ensures HandshakeAnswer(config, payload, sessionId).message.Id() <= 0
  {
    assert config.wire.Fits(Welcoming(config, sessionId).message);
    match config.wire.decodeHello(payload)
    case None =>
    case Some(hello) => assert config.wire.Fits(UnsupportedVersion(hello.protocolVersion).message);
  }

  /** The handshake turn, as a reply sent before the gate is set. */
  lemma HandshakeTurn(config: Config, k: Conn, sessionId: string)
    requires !k.link.accepted
    requires ParseFrame(k.link.buffer).Parsed? && ParseFrame(k.link.buffer).frame.kind.Json?
    ensures
      var (k', request) := Handled(config, k, sessionId);
      var p := ParseFrame(k.link.buffer);
      var answer := HandshakeAnswer(config, p.frame.payload, sessionId);
      var a := Answered(config, k.(link := k.link.(buffer := p.rest)), answer);
      && request.None?
      && k'.link.buffer == p.rest && k'.link.outbox == a.link.outbox && k'.groups == a.groups
      && k'.link.accepted == answer.message.Welcome?
      && k'.link.open == (k.link.open && answer.message.Welcome?)
      && k' == k.(link := k'.link, groups := k'.groups, credentials := k'.credentials,
                  unhandled := if k.unhandled == [] then [] else k.unhandled[1..])
  {
  }

  /** A connection on which the handshake has just been answered. */
  lemma GreetedConn(wire: Wire, k: Conn, answer: Group)
    requires DownInv(wire, k)
    requires k.unhandled == [] && k.asked == [] && k.link.buffer == [] && k.up == []
    requires answer.message.Id() <= 0
    requires k.groups == [answer] || (k.groups == [] && !k.link.open)
    requires k.link.accepted <==> answer.message.Welcome?
    requires !k.link.accepted ==> !k.link.open
    ensures ConnInv(wire, k, [], [])
  {
    NothingInFlight(wire, k);
    GreetedAnswers(k, answer);
  }

  lemma NothingInFlight(wire: Wire, k: Conn)
    requires k.unhandled == [] && k.asked == [] && k.link.buffer == [] && k.up == []
    ensures UpInv(wire, k) && Conserved(k, [], [])
  {
    assert EncodeAll(UpFrames(wire, [])) == [];
    assert k.asked == RequestsOf([]) + [] + Unparsed([]);
  }

  lemma GreetedAnswers(k: Conn, answer: Group)
    requires answer.message.Id() <= 0
    requires k.groups == [answer] || k.groups == []
    ensures AnswersInv(k, [])
  {
  }

  /** Handling the handshake: the gate opens, or the connection closes; either way one reply goes out. */
  lemma HandlingHello(config: Config, k: Conn, sessionId: string)
    requires Sound(config) && IsUuid(sessionId)
    requires ConnInv(config.wire, k, [], []) && !NoHello(k.unhandled)
    ensures var (k', request) := Handled(config, k, sessionId);
      request.None? && ConnInv(config.wire, k', [], [])
  {
    BufferHoldsTheNext(config.wire, k);
    if ParseFrame(k.link.buffer).Parsed? {
      HandlingWholeHello(config, k, ParseFrame(k.link.buffer).frame.payload, ParseFrame(k.link.buffer).rest, sessionId);
    }
  }

  lemma HandlingWholeHello(config: Config, k: Conn, payload: seq<Byte>, rest: seq<Byte>, sessionId: string)
    requires Sound(config) && IsUuid(sessionId)
    requires ConnInv(config.wire, k, [], []) && !NoHello(k.unhandled)
    requires ParseFrame(k.link.buffer) == Parsed(Frame(Json, payload), rest)
    requires rest + k.up == EncodeAll(UpFrames(config.wire, k.unhandled[1..]))
    ensures var (k', request) := Handled(config, k, sessionId);
      request.None? && ConnInv(config.wire, k', [], [])
  {
    var answer := HandshakeAnswer(config, payload, sessionId);
    var k1 := k.(link := k.link.(buffer := rest));
    HandshakeAnswersFit(config, payload, sessionId);
    HandshakeTurn(config, k, sessionId);
    PostKeepsDown(config, k1, answer);
    var k', a := Handled(config, k, sessionId).0, Answered(config, k1, answer);
    assert k.unhandled[1..] == [];
    assert rest + k.up == [];
    SameDown(config.wire, a, k');
    GreetedConn(config.wire, k', answer);
  }

  lemma SameDown(wire: Wire, a: Conn, b: Conn)
    requires DownInv(wire, a)
    requires a.link.outbox == b.link.outbox && a.groups == b.groups && a.read == b.read && a.consumed == b.consumed
    requires b.link.open ==> a.link.open
    ensures DownInv(wire, b)
  {
  }

  lemma MovesToQueue(k: Conn, k': Conn, queue: seq<Request>, done: seq<Executed>, request: Request)
    requires Conserved(k, queue, done)
    requires k'.asked == k.asked && k.unhandled == [WroteRequest(request)] + k'.unhandled
    ensures Conserved(k', queue + [request], done)
    ensures request in k.asked
  {
    assert k.unhandled[1..] == k'.unhandled;
    assert RequestsOf(done) + queue + ([request] + Unparsed(k'.unhandled))
        == RequestsOf(done) + (queue + [request]) + Unparsed(k'.unhandled);
    assert k.asked[|done| + |queue|] == request;
  }

  /** The turn that handles a request: nothing but the parse position changes on the connection. */
  lemma RequestTurn(config: Config, k: Conn, request: Request, rest: seq<Byte>, sessionId: string)
    requires config.wire.Faithful() && FitsInt64(request.id)
    requires k.link.accepted
    requires ParseFrame(k.link.buffer) == Parsed(UpFrame(config.wire, WroteRequest(request)), rest)
    ensures Handled(config, k, sessionId) ==
      (k.(link := k.link.(buffer := rest), unhandled := if k.unhandled == [] then [] else k.unhandled[1..]),
       Some(request))
  {
    assert config.wire.decodeRequest(config.wire.encodeRequest(request)) == Some(request);
  }

  /** Past the handshake, handling a frame moves one request into the queue, and sends nothing. */
  lemma HandlingRequest(config: Config, k: Conn, queue: seq<Request>, done: seq<Executed>, sessionId: string)
    requires Sound(config)
    requires ConnInv(config.wire, k, queue, done) && NoHello(k.unhandled)
    ensures var (k', request) := Handled(config, k, sessionId);
      && k'.link.outbox == k.link.outbox && k'.link.accepted == k.link.accepted
      && (request.Some? ==> k.link.accepted)
      && ConnInv(config.wire, k', queue + AsList(request), done)
  {
    BufferHoldsTheNext(config.wire, k);
    assert queue + [] == queue;
    if ParseFrame(k.link.buffer).Parsed? {
      HandlingWholeRequest(config, k, queue, done, k.unhandled[0].request, ParseFrame(k.link.buffer).rest, sessionId);
    }
  }

  lemma HandlingWholeRequest(config: Config, k: Conn, queue: seq<Request>, done: seq<Executed>,
                             request: Request, rest: seq<Byte>, sessionId: string)
    requires Sound(config)
    requires ConnInv(config.wire, k, queue, done) && NoHello(k.unhandled) && k.link.accepted
    requires k.unhandled != [] && k.unhandled[0] == WroteRequest(request)
    requires ParseFrame(k.link.buffer) == Parsed(UpFrame(config.wire, k.unhandled[0]), rest)
    requires rest + k.up == EncodeAll(UpFrames(config.wire, k.unhandled[1..]))
    ensures var (k', queued) := Handled(config, k, sessionId);
      && queued == Some(request) && k'.link.outbox == k.link.outbox && k'.link.accepted
      && ConnInv(config.wire, k', queue + [request], done)
  {
    var k' := k.(link := k.link.(buffer := rest), unhandled := k.unhandled[1..]);
    assert k.unhandled == [WroteRequest(request)] + k'.unhandled;
    MovesToQueue(k, k', queue, done, request);
    RequestTurn(config, k, request, rest, sessionId);
    SameDown(config.wire, k, k');
  }

  // ---- The agent executes -----------------------------------------------------------------------

  lemma MovesToDone(k: Conn, queue: seq<Request>, done: seq<Executed>, e: Executed)
    requires Conserved(k, queue, done) && queue != [] && e.command.request == queue[0]
    ensures Conserved(k, queue[1..], done + [e])
    ensures forall n :: 0 <= n < |done| ==> done[n].command.request.id < e.command.request.id
    ensures e.command.request.id > 0
  {
    assert queue == [queue[0]] + queue[1..];
    assert RequestsOf(done + [e]) == RequestsOf(done) + [queue[0]];
    assert RequestsOf(done) + queue + Unparsed(k.unhandled)
        == RequestsOf(done) + [queue[0]] + queue[1..] + Unparsed(k.unhandled);
    assert k.asked[|done|] == queue[0];
    forall n | 0 <= n < |done| ensures done[n].command.request.id < e.command.request.id {
      assert k.asked[n] == done[n].command.request;
    }
  }

  /** The ids of the answers sent are ids of commands executed; a command executed later has a larger one. */
  lemma AnswersGrow(k: Conn, done: seq<Executed>, e: Executed)
    requires AnswersInv(k, done)
    requires forall n :: 0 <= n < |done| ==> done[n].command.request.id < e.command.request.id
    requires e.command.request.id > 0
    ensures IncreasingGroups(k.groups + [AnswerOf(e)])
    ensures forall g :: IsAnswer(g, done) ==> IsAnswer(g, done + [e])
    ensures IsAnswer(AnswerOf(e), done + [e])
  {
    forall j | 0 <= j < |k.groups| ensures k.groups[j].message.Id() < AnswerOf(e).message.Id() {
      if k.groups[j].message.Id() > 0 {
        var n :| 0 <= n < |done| && k.groups[j] == AnswerOf(done[n]);
      }
    }
    forall g | IsAnswer(g, done) ensures IsAnswer(g, done + [e]) {
      var n :| 0 <= n < |done| && g == AnswerOf(done[n]);
      assert (done + [e])[n] == done[n];
    }
    assert (done + [e])[|done|] == e;
  }

  lemma Executing(config: Config, k: Conn, queue: seq<Request>, done: seq<Executed>, e: Executed)
    requires ConnInv(config.wire, k, queue, done)
    requires queue != [] && e.command.request == queue[0]
    requires k.link.accepted && Deliverable(config.wire, AnswerOf(e))
    ensures ConnInv(config.wire, Answered(config, k, AnswerOf(e)), queue[1..], done + [e])
  {
    var g := AnswerOf(e);
    var k' := Answered(config, k, g);
    MovesToDone(k, queue, done, e);
    AnswersGrow(k, done, e);
    if config.wire.encodeDown(g.message).Some? {
      PostKeepsDown(config, k, g);
    } else {
      PostNothing(config, k, g);
    }
  }

  // ---- The client reads and writes ----------------------------------------------------------------

  lemma ConsumeNext(wire: Wire, k: Conn, rest: seq<Byte>)
    requires DownInv(wire, k) && k.read < |k.groups|
    requires Unread(k) == ResponseBytes(wire, k.groups[k.read]) + rest
    ensures DownInv(wire, Consume(wire, k, k.groups[k.read]))
  {
    var g := k.groups[k.read];
    BytesOfNext(wire, k.groups, k.read);
    assert |Unread(k)| == |ResponseBytes(wire, g)| + |rest|;
  }

  lemma BytesOfNext(wire: Wire, gs: seq<Group>, n: nat)
    requires n < |gs|
    ensures GroupBytes(wire, gs[..n + 1]) == GroupBytes(wire, gs[..n]) + ResponseBytes(wire, gs[n])
  {
    GroupBytesAppend(wire, gs[..n], [gs[n]]);
    assert GroupBytes(wire, [gs[n]]) == ResponseBytes(wire, gs[n]) + [];
    assert gs[..n + 1] == gs[..n] + [gs[n]];
  }

  lemma ReadsWhole(wire: Wire, k: Conn)
    requires wire.Faithful() && DownInv(wire, k)
    ensures var r := ReadGroup(wire, Unread(k));
      && !r.Rejected?
      && (r.Got? ==> k.read < |k.groups| && r.group == k.groups[k.read] && Unread(k) == ResponseBytes(wire, r.group) + r.rest)
  {
    var later := k.groups[k.read..];
    assert k.groups == k.groups[..k.read] + later;
    GroupBytesAppend(wire, k.groups[..k.read], later);
    assert Unread(k) <= GroupBytes(wire, later);
    ReadArrived(wire, Unread(k), later);
  }

  /** Reading: the SDK waits or gets the next group whole. It never meets a framing error. */
  lemma ReadingNext(wire: Wire, k: Conn)
    requires wire.Faithful() && DownInv(wire, k)
    ensures var r := ReadGroup(wire, Unread(k));
      && !r.Rejected?
      && (r.Got? ==> k.read < |k.groups| && r.group == k.groups[k.read] && DownInv(wire, Consume(wire, k, r.group)))
  {
    ReadsWhole(wire, k);
    var r := ReadGroup(wire, Unread(k));
    if r.Got? {
      ConsumeNext(wire, k, r.rest);
    }
  }

  lemma WritingBytes(wire: Wire, k: Conn, request: Request)
    requires UpInv(wire, k) && Sendable(UpFrame(wire, WroteRequest(request)))
    ensures UpInv(wire, Extended(wire, k, request))
  {
    var frame := UpFrame(wire, WroteRequest(request));
    assert UpFrames(wire, k.unhandled + [WroteRequest(request)]) == UpFrames(wire, k.unhandled) + [frame];
    EncodeAllAppend(UpFrames(wire, k.unhandled), [frame]);
    assert EncodeAll([frame]) == Encode(frame) + [];
    assert k.link.buffer + (k.up + Encode(frame)) == k.link.buffer + k.up + Encode(frame);
  }

  lemma WritingConserves(wire: Wire, k: Conn, queue: seq<Request>, done: seq<Executed>, request: Request)
    requires Conserved(k, queue, done)
    requires request.id > 0 && FitsInt64(request.id)
    requires forall i :: 0 <= i < |k.asked| ==> k.asked[i].id < request.id
    ensures Conserved(Extended(wire, k, request), queue, done)
  {
    UnparsedAppend(k.unhandled, [WroteRequest(request)]);
    assert Unparsed([WroteRequest(request)]) == [request];
    assert RequestsOf(done) + queue + (Unparsed(k.unhandled) + [request])
        == RequestsOf(done) + queue + Unparsed(k.unhandled) + [request];
  }

  lemma Writing(wire: Wire, k: Conn, queue: seq<Request>, done: seq<Executed>, request: Request)
    requires ConnInv(wire, k, queue, done) && NoHello(k.unhandled)
    requires Sendable(UpFrame(wire, WroteRequest(request)))
    requires request.id > 0 && FitsInt64(request.id)
    requires forall i :: 0 <= i < |k.asked| ==> k.asked[i].id < request.id
    ensures ConnInv(wire, Extended(wire, k, request), queue, done)
  {
    WritingBytes(wire, k, request);
    WritingConserves(wire, k, queue, done, request);
  }
}
