/** Every step of the protocol keeps the invariant of the whole state. */
module SessionProof {
  import opened Wrappers
  import opened Framing
  import opened Messages
  import opened Groups
  import opened Agent
  import opened Session
  import opened SessionInvariant
  import opened SessionSteps

  // ---- Frames: what a step does not touch stays good ----------------------------------------------

  /** The parts of a connection that its client's invariant looks at. */
  ghost predicate SameTies(k: Conn, k': Conn) {
    && k'.owner == k.owner && k'.asked == k.asked && k'.base == k.base
    && (NoHello(k.unhandled) ==> NoHello(k'.unhandled))
  }

  ghost predicate SameOwners(s: State, s': State) {
    && |s.conns| <= |s'.conns|
    && forall d :: 0 <= d < |s.conns| ==> SameTies(s.conns[d], s'.conns[d])
  }

  lemma ClientFrame(s: State, s': State, i: nat)
    requires i < |s.clients| && i < |s'.clients| && s'.clients[i] == s.clients[i]
    requires SameOwners(s, s')
    requires forall d :: |s.conns| <= d < |s'.conns| ==> s'.conns[d].owner != Some(i)
    requires ClientOk(s, i)
    ensures ClientOk(s', i)
  {
    forall c | 0 <= c ensures OwnedBy(s', c, i) <==> OwnedBy(s, c, i) {
      if c < |s.conns| { assert SameTies(s.conns[c], s'.conns[c]); }
    }
  }

  lemma ConnFrame(config: Config, s: State, s': State, d: nat)
    requires d < |s.conns| && d < |s'.conns| && s'.conns[d] == s.conns[d] && |s'.clients| == |s.clients|
    requires OnConn(s'.pending, d) == OnConn(s.pending, d) && Done(s'.executed, d) == Done(s.executed, d)
    requires ConnOk(config, s, d)
    ensures ConnOk(config, s', d)
  {
  }

  lemma ReturnedFrame(s: State, s': State)
    requires ReturnedInv(s) && s'.returned == s.returned
    requires s.executed <= s'.executed && SameOwners(s, s')
    ensures ReturnedInv(s')
  {
    forall n | 0 <= n < |s'.returned|
      ensures Vouched(s'.returned[n], s'.executed) && OwnedBy(s', s'.returned[n].conn, s'.returned[n].client)
    {
      var t := s.returned[n];
      assert Vouched(t, s.executed) && OwnedBy(s, t.conn, t.client);
      VouchedFrame(t, s.executed, s'.executed);
      assert SameTies(s.conns[t.conn], s'.conns[t.conn]);
    }
  }

  lemma VouchedFrame(t: Returned, executed: seq<Executed>, more: seq<Executed>)
    requires Vouched(t, executed) && executed <= more
    ensures Vouched(t, more)
  {
    var n :| 0 <= n < |executed| && executed[n].command == Queued(t.conn, t.request) && t.reply == AnswerOf(executed[n]);
    assert more[n] == executed[n];
  }

  /** A step of the agent: it changes one connection and moves the queue. */
  lemma OneConnectionAndQueue(config: Config, s: State, s': State, c: nat)
    requires Inv(config, s) && c < |s.conns|
    requires s'.clients == s.clients && s'.returned == s.returned
    requires |s'.conns| == |s.conns| && forall d :: 0 <= d < |s.conns| && d != c ==> s'.conns[d] == s.conns[d]
    requires SameTies(s.conns[c], s'.conns[c])
    requires forall d :: 0 <= d < |s.conns| && d != c ==>
      OnConn(s'.pending, d) == OnConn(s.pending, d) && Done(s'.executed, d) == Done(s.executed, d)
    requires s.executed <= s'.executed
    requires ConnOk(config, s', c) && QueueInv(s')
    ensures Inv(config, s')
  {
    assert SameOwners(s, s');
    forall i | 0 <= i < |s'.clients| ensures ClientOk(s', i) { ClientFrame(s, s', i); }
    forall d | 0 <= d < |s'.conns| ensures ConnOk(config, s', d) {
      if d != c { ConnFrame(config, s, s', d); }
    }
    ReturnedFrame(s, s');
  }

  /** A step that changes one connection, and neither the queue nor what has been executed. */
  lemma OneConnection(config: Config, s: State, c: nat, k: Conn)
    requires Inv(config, s) && c < |s.conns|
    requires SameTies(s.conns[c], k)
    requires s.conns[c].link.accepted ==> k.link.accepted
    requires ConnOk(config, SetConn(s, c, k), c)
    ensures Inv(config, SetConn(s, c, k))
  {
    OneConnectionAndQueue(config, s, SetConn(s, c, k), c);
  }

  /** The phases a client may pass to without writing: it can always go offline, and be idle on a greeted connection. */
  ghost predicate MayBecome(s: State, i: nat, phase: Phase)
    requires i < |s.clients|
  {
    phase.Offline? ||
    (phase.Idle? && !s.clients[i].phase.Offline? && s.clients[i].at < |s.conns| && NoHello(s.conns[s.clients[i].at].unhandled))
  }

  lemma PhaseFrame(s: State, i: nat, phase: Phase)
    requires i < |s.clients| && ClientOk(s, i) && MayBecome(s, i, phase)
    ensures ClientOk(SetPhase(s, i, phase), i)
  {
    forall d | 0 <= d ensures OwnedBy(SetPhase(s, i, phase), d, i) <==> OwnedBy(s, d, i) {}
  }

  /** A step that changes only the phase of one client. */
  lemma OnePhase(config: Config, s: State, i: nat, phase: Phase)
    requires Inv(config, s) && i < |s.clients| && MayBecome(s, i, phase)
    ensures Inv(config, SetPhase(s, i, phase))
  {
    var s' := SetPhase(s, i, phase);
    forall j | 0 <= j < |s'.clients| ensures ClientOk(s', j) {
      assert ClientOk(s, j);
      if j != i { ClientFrame(s, s', j); } else { PhaseFrame(s, i, phase); }
    }
    forall d | 0 <= d < |s'.conns| ensures ConnOk(config, s', d) { ConnFrame(config, s, s', d); }
    ReturnedFrame(s, s');
  }

  // ---- The steps -----------------------------------------------------------------------------------

  lemma ReceiveKeeps(config: Config, s: State, c: nat, size: nat)
    requires Inv(config, s) && Enabled(config, s, Receive(c, size))
    ensures Inv(config, Apply(config, s, Receive(c, size)))
  {
    var k := s.conns[c];
    var k' := k.(up := k.up[size..], link := k.link.(buffer := k.link.buffer + k.up[..size]));
    assert ConnOk(config, s, c);
    assert k'.link.buffer + k'.up == k.link.buffer + k.up;
    OneConnection(config, s, c, k');
  }

  lemma CancelKeeps(config: Config, s: State, c: nat, kept: nat)
    requires Inv(config, s) && Enabled(config, s, Cancel(c, kept))
    ensures Inv(config, Apply(config, s, Cancel(c, kept)))
  {
    var k := s.conns[c];
    var k' := k.(link := k.link.(open := false, outbox := k.link.outbox[..kept]));
    assert ConnOk(config, s, c);
    OneConnection(config, s, c, k');
  }

  lemma PeerWritesKeeps(config: Config, s: State, c: nat, bytes: seq<Byte>)
    requires Inv(config, s) && Enabled(config, s, PeerWrites(c, bytes))
    ensures Inv(config, Apply(config, s, PeerWrites(c, bytes)))
  {
    assert ConnOk(config, s, c);
    OneConnection(config, s, c, s.conns[c].(up := s.conns[c].up + bytes));
  }

  lemma PeerOpensKeeps(config: Config, s: State)
    requires Inv(config, s)
    ensures Inv(config, Apply(config, s, PeerOpens))
  {
    var s' := Apply(config, s, PeerOpens);
    assert SameOwners(s, s');
    forall i | 0 <= i < |s'.clients| ensures ClientOk(s', i) { ClientFrame(s, s', i); }
    forall d | 0 <= d < |s'.conns| ensures ConnOk(config, s', d) {
      if d < |s.conns| { ConnFrame(config, s, s', d); }
    }
    ReturnedFrame(s, s');
  }

  /** Nothing is queued or executed yet for a connection that does not exist yet. */
  lemma NothingForNewConn(s: State)
    requires QueueInv(s)
    ensures OnConn(s.pending, |s.conns|) == [] && Done(s.executed, |s.conns|) == []
  {
    forall q <- s.pending ensures q.conn != |s.conns| {
      var n :| 0 <= n < |s.pending| && s.pending[n] == q;
      assert s.arrived[|s.executed| + n] == q;
    }
    forall e <- s.executed ensures e.command.conn != |s.conns| {
      var n :| 0 <= n < |s.executed| && s.executed[n] == e;
      assert s.arrived[n] == e.command;
    }
    OnConnEmpty(s.pending, |s.conns|);
    DoneEmpty(s.executed, |s.conns|);
  }

  lemma OpenedConn(config: Config, owner: nat, nextId: nat, hello: Hello)
    requires Sendable(UpFrame(config.wire, WroteHello(hello)))
    ensures ConnInv(config.wire, Opened(config, owner, nextId, hello), [], [])
  {
    var k := Opened(config, owner, nextId, hello);
    assert UpFrames(config.wire, k.unhandled) == [UpFrame(config.wire, WroteHello(hello))];
    assert EncodeAll(UpFrames(config.wire, k.unhandled)) == k.up + EncodeAll([]);
  }

  lemma ConnectKeepsClient(config: Config, s: State, i: nat, hello: Hello)
    requires i < |s.clients| && ClientOk(s, i)
    ensures ClientOk(ApplyConnect(config, s, i, hello), i)
  {
    var s' := ApplyConnect(config, s, i, hello);
    var fresh_ := |s.conns|;
    forall c | 0 <= c < fresh_ ensures OwnedBy(s', c, i) <==> OwnedBy(s, c, i) {}
    forall c, d | 0 <= c < d && OwnedBy(s', c, i) && OwnedBy(s', d, i)
      ensures IdsWithin(s'.conns[c].asked, s'.conns[c].base, s'.conns[d].base)
    {
      assert OwnedBy(s, c, i);
      if d < fresh_ { assert OwnedBy(s, d, i); }
    }
  }

  lemma NewConnIsOk(config: Config, s: State, s': State, i: nat, hello: Hello)
    requires QueueInv(s) && i < |s.clients| && |s'.clients| == |s.clients|
    requires Sendable(UpFrame(config.wire, WroteHello(hello)))
    requires |s'.conns| == |s.conns| + 1 && s'.conns[|s.conns|] == Opened(config, i, s.clients[i].nextId, hello)
    requires s'.pending == s.pending && s'.executed == s.executed
    ensures ConnOk(config, s', |s.conns|)
  {
    NothingForNewConn(s);
    OpenedConn(config, i, s.clients[i].nextId, hello);
  }

  lemma OldOrNew(config: Config, s: State, s': State, d: nat)
    requires forall c :: 0 <= c < |s.conns| ==> ConnOk(config, s, c)
    requires |s'.conns| == |s.conns| + 1 && s'.conns[..|s.conns|] == s.conns && ConnOk(config, s', |s.conns|)
    requires |s'.clients| == |s.clients| && s'.pending == s.pending && s'.executed == s.executed
    requires d < |s'.conns|
    ensures ConnOk(config, s', d)
  {
    if d < |s.conns| {
      assert s'.conns[..|s.conns|][d] == s.conns[d];
      ConnFrame(config, s, s', d);
    }
  }

  lemma ConnectKeeps(config: Config, s: State, i: nat, hello: Hello)
    requires Inv(config, s) && Enabled(config, s, Connect(i, hello))
    ensures Inv(config, Apply(config, s, Connect(i, hello)))
  {
    var s' := ApplyConnect(config, s, i, hello);
    assert SameOwners(s, s');
    NewConnIsOk(config, s, s', i, hello);
    forall d | 0 <= d < |s'.conns| ensures ConnOk(config, s', d) { OldOrNew(config, s, s', d); }
    forall j | 0 <= j < |s'.clients| ensures ClientOk(s', j) {
      assert ClientOk(s, j);
      if j != i { ClientFrame(s, s', j); } else { ConnectKeepsClient(config, s, i, hello); }
    }
    ReturnedFrame(s, s');
  }

  /** Reading the next group off an SDK connection. */
  lemma ConsumeKeeps(config: Config, s: State, c: nat)
    requires Sound(config) && Inv(config, s)
    requires c < |s.conns| && s.conns[c].owner.Some? && s.conns[c].consumed <= |s.conns[c].link.outbox|
    requires !ReadGroup(config.wire, Unread(s.conns[c])).Waiting?
    ensures var k := s.conns[c];
      && k.read < |k.groups|
      && ReadGroup(config.wire, Unread(k)).Got? && ReadGroup(config.wire, Unread(k)).group == k.groups[k.read]
      && NoHello(k.unhandled)
      && Inv(config, SetConn(s, c, Consume(config.wire, k, k.groups[k.read])))
  {
    assert ConnOk(config, s, c);
    ReadingNext(config.wire, s.conns[c]);
    OneConnection(config, s, c, Consume(config.wire, s.conns[c], s.conns[c].groups[s.conns[c].read]));
  }

  lemma ReadGreetingKeeps(config: Config, s: State, i: nat)
    requires Sound(config) && Inv(config, s) && Enabled(config, s, ReadGreeting(i))
    ensures Inv(config, Apply(config, s, ReadGreeting(i)))
  {
    var at := s.clients[i].at;
    assert ClientOk(s, i);
    ConsumeKeeps(config, s, at);
    OnePhase(config, SetConn(s, at, Consume(config.wire, s.conns[at], s.conns[at].groups[s.conns[at].read])), i, Idle);
  }

  lemma AnswersAreBounded(k: Conn, queue: seq<Request>, done: seq<Executed>, request: Request, j: nat)
    requires Conserved(k, queue, done) && AnswersInv(k, done)
    requires k.asked != [] && k.asked[|k.asked| - 1] == request
    requires j < |k.groups|
    ensures k.groups[j].message.Id() <= request.id
    ensures k.groups[j].message.Id() == request.id ==>
      |done| == |k.asked| && done[|done| - 1].command.request == request && k.groups[j] == AnswerOf(done[|done| - 1])
  {
    assert request.id > 0;
    if k.groups[j].message.Id() > 0 {
      assert IsAnswer(k.groups[j], done);
      var n :| 0 <= n < |done| && k.groups[j] == AnswerOf(done[n]);
      assert k.asked[n] == done[n].command.request;
      if k.groups[j].message.Id() == request.id {
        assert n == |k.asked| - 1;
      }
    }
  }

  /**
   The heart of the matter. A reply whose id is the awaited one is the answer to the awaited
   request itself: growing ids leave no other request it could be the answer to. Then every request
   written on the connection has been executed, and every group sent has been read.
  */
  lemma MatchingReply(wire: Wire, k: Conn, queue: seq<Request>, done: seq<Executed>, request: Request)
    requires ConnInv(wire, k, queue, done)
    requires k.asked != [] && k.asked[|k.asked| - 1] == request
    requires k.read < |k.groups| && k.groups[k.read].message.Id() == request.id
    ensures done != [] && done[|done| - 1].command.request == request
    ensures k.groups[k.read] == AnswerOf(done[|done| - 1])
    ensures queue == [] && Unparsed(k.unhandled) == []
    ensures k.read == |k.groups| - 1
  {
    AnswersAreBounded(k, queue, done, request, k.read);
    assert |queue| + |Unparsed(k.unhandled)| == 0;
    if k.read + 1 < |k.groups| {
      AnswersAreBounded(k, queue, done, request, k.read + 1);
      assert false;
    }
  }

  /** Any other reply that is read has a smaller id: the awaited one is never thrown away. */
  lemma StaleReply(wire: Wire, k: Conn, queue: seq<Request>, done: seq<Executed>, request: Request)
    requires ConnInv(wire, k, queue, done)
    requires k.asked != [] && k.asked[|k.asked| - 1] == request
    requires k.read < |k.groups| && k.groups[k.read].message.Id() != request.id
    ensures k.groups[k.read].message.Id() < request.id
  {
    AnswersAreBounded(k, queue, done, request, k.read);
  }

  lemma ReadReplyKeeps(config: Config, s: State, i: nat)
    requires Sound(config) && Inv(config, s) && Enabled(config, s, ReadReply(i))
    ensures Inv(config, Apply(config, s, ReadReply(i)))
  {
    var at := s.clients[i].at;
    var k := s.conns[at];
    assert ClientOk(s, i);
    ConsumeKeeps(config, s, at);
    var g := k.groups[k.read];
    if g.message.Id() == s.clients[i].phase.request.id {
      ReplyIsVouchedFor(config, s, i);
      var t := Returned(i, at, s.clients[i].phase.request, g);
      var s1 := SetConn(s, at, Consume(config.wire, k, g));
      ReturningKeeps(config, s1, t);
      OnePhase(config, s1.(returned := s1.returned + [t]), i, Idle);
    }
  }

  lemma ReplyIsVouchedFor(config: Config, s: State, i: nat)
    requires Inv(config, s)
    requires i < |s.clients| && s.clients[i].phase.Awaiting?
    requires s.clients[i].at < |s.conns|
    requires var k := s.conns[s.clients[i].at];
      k.read < |k.groups| && k.groups[k.read].message.Id() == s.clients[i].phase.request.id
    ensures var at := s.clients[i].at;
      Vouched(Returned(i, at, s.clients[i].phase.request, s.conns[at].groups[s.conns[at].read]), s.executed)
  {
    var at := s.clients[i].at;
    var done := Done(s.executed, at);
    assert ClientOk(s, i) && ConnOk(config, s, at);
    MatchingReply(config.wire, s.conns[at], OnConn(s.pending, at), done, s.clients[i].phase.request);
    DoneIsExecuted(s.executed, at);
    var e := done[|done| - 1];
    assert e in done;
    var n :| 0 <= n < |s.executed| && s.executed[n] == e;
    assert s.executed[n].command == Queued(at, s.clients[i].phase.request);
  }

  lemma ReturningKeeps(config: Config, s: State, t: Returned)
    requires Inv(config, s) && Vouched(t, s.executed) && OwnedBy(s, t.conn, t.client)
    ensures Inv(config, s.(returned := s.returned + [t]))
  {
    var s' := s.(returned := s.returned + [t]);
    forall i | 0 <= i < |s'.clients| ensures ClientOk(s', i) { ClientFrame(s, s', i); }
    forall d | 0 <= d < |s'.conns| ensures ConnOk(config, s', d) { ConnFrame(config, s, s', d); }
    forall n | 0 <= n < |s'.returned|
      ensures Vouched(s'.returned[n], s'.executed) && OwnedBy(s', s'.returned[n].conn, s'.returned[n].client)
    {
      if n < |s.returned| { assert s'.returned[n] == s.returned[n]; }
    }
  }

  lemma PhaseKeeps(config: Config, s: State, i: nat, phase: Phase)
    requires Inv(config, s) && i < |s.clients|
    requires phase.Offline? || (phase.Idle? && s.clients[i].phase.Awaiting?)
    ensures Inv(config, SetPhase(s, i, phase))
  {
    assert ClientOk(s, i) && PhaseInv(s, i);
    OnePhase(config, s, i, phase);
  }

  lemma HandleKeepsConn(config: Config, s: State, c: nat, sessionId: string)
    requires Sound(config) && c < |s.conns| && ConnOk(config, s, c) && IsUuid(sessionId)
    ensures ConnOk(config, ApplyHandle(config, s, c, sessionId), c)
    ensures SameTies(s.conns[c], ApplyHandle(config, s, c, sessionId).conns[c])
  {
    var k, queue := s.conns[c], OnConn(s.pending, c);
    HandledGate(config, k, sessionId);
    QueuedOn(s.pending, Handled(config, k, sessionId).1, c, c);
    if k.owner.Some? {
      HandledConn(config, k, queue, Done(s.executed, c), sessionId);
    }
  }

  lemma HandleKeepsQueue(config: Config, s: State, c: nat, sessionId: string)
    requires QueueInv(s) && c < |s.conns| && GateHistory(config, s.conns[c])
    ensures QueueInv(ApplyHandle(config, s, c, sessionId))
  {
    var request := Handled(config, s.conns[c], sessionId).1;
    var batch := if request.Some? then [Queued(c, request.value)] else [];
    HandledGate(config, s.conns[c], sessionId);
    assert CommandsOf(s.executed) + s.pending + batch == CommandsOf(s.executed) + (s.pending + batch);
  }

  lemma HandleKeeps(config: Config, s: State, c: nat, sessionId: string)
    requires Sound(config) && Inv(config, s) && Enabled(config, s, Handle(c, sessionId))
    ensures Inv(config, Apply(config, s, Handle(c, sessionId)))
  {
    var s' := ApplyHandle(config, s, c, sessionId);
    assert ConnOk(config, s, c);
    HandleKeepsConn(config, s, c, sessionId);
    HandleKeepsQueue(config, s, c, sessionId);
    forall d | 0 <= d < |s.conns| && d != c ensures OnConn(s'.pending, d) == OnConn(s.pending, d) {
      QueuedOn(s.pending, Handled(config, s.conns[c], sessionId).1, c, d);
    }
    OneConnectionAndQueue(config, s, s', c);
  }

  lemma HandledConn(config: Config, k: Conn, queue: seq<Request>, done: seq<Executed>, sessionId: string)
    requires Sound(config) && IsUuid(sessionId) && ConnInv(config.wire, k, queue, done)
    ensures var (k', request) := Handled(config, k, sessionId);
      ConnInv(config.wire, k', queue + AsList(request), done)
  {
    if NoHello(k.unhandled) {
      HandlingRequest(config, k, queue, done, sessionId);
    } else {
      assert |RequestsOf(done)| == |done|;
      assert queue == [] && done == [];
      HandlingHello(config, k, sessionId);
      assert queue + [] == queue;
    }
  }

  lemma QueuedOn(queue: seq<Queued>, request: Option<Request>, c: nat, d: nat)
    ensures var batch := if request.Some? then [Queued(c, request.value)] else [];
      OnConn(queue + batch, d) == if d == c then OnConn(queue, d) + AsList(request) else OnConn(queue, d)
  {
    var batch := if request.Some? then [Queued(c, request.value)] else [];
    OnConnAppend(queue, batch, d);
    assert OnConn(queue, d) + [] == OnConn(queue, d);
    if request.Some? { assert batch[1..] == []; }
  }

  /** On any connection: the gate stays open, opens only to an acceptable handshake, and queues only behind it. */
  lemma HandledGate(config: Config, k: Conn, sessionId: string)
    requires GateHistory(config, k)
    ensures var (k', request) := Handled(config, k, sessionId);
      && GateHistory(config, k')
      && (k.link.accepted ==> k'.link.accepted)
      && (request.Some? ==> k.link.accepted)
      && k'.owner == k.owner && k'.asked == k.asked && k'.base == k.base && k'.consumed == k.consumed
      && (NoHello(k.unhandled) ==> NoHello(k'.unhandled))
      && k.link.outbox <= k'.link.outbox
  {
  }

  lemma ExecuteKeepsConn(config: Config, s: State, outcome: Outcome)
    requires Inv(config, s) && Enabled(config, s, Execute(outcome))
    ensures var c := s.pending[0].conn;
      ConnOk(config, ApplyExecute(config, s, outcome), c)
  {
    var e := Executed(s.pending[0], outcome);
    var c := e.command.conn;
    assert s.arrived[|s.executed|] == s.pending[0];
    assert ConnOk(config, s, c);
    ExecutedOn(s.pending, s.executed, e, c);
    if s.conns[c].owner.Some? {
      Executing(config, s.conns[c], OnConn(s.pending, c), Done(s.executed, c), e);
    }
  }

  lemma ExecuteKeeps(config: Config, s: State, outcome: Outcome)
    requires Sound(config) && Inv(config, s) && Enabled(config, s, Execute(outcome))
    ensures Inv(config, Apply(config, s, Execute(outcome)))
  {
    var s' := ApplyExecute(config, s, outcome);
    var e := Executed(s.pending[0], outcome);
    ExecuteKeepsConn(config, s, outcome);
    ExecutedQueue(s, s', e);
    forall d | 0 <= d < |s.conns| && d != e.command.conn
      ensures OnConn(s'.pending, d) == OnConn(s.pending, d) && Done(s'.executed, d) == Done(s.executed, d)
    {
      ExecutedOn(s.pending, s.executed, e, d);
    }
    OneConnectionAndQueue(config, s, s', e.command.conn);
  }

  lemma ExecutedOn(queue: seq<Queued>, executed: seq<Executed>, e: Executed, d: nat)
    requires queue != [] && queue[0] == e.command
    ensures var here := e.command.conn == d;
      && Done(executed + [e], d) == (if here then Done(executed, d) + [e] else Done(executed, d))
      && (if here then OnConn(queue, d) != [] && OnConn(queue, d)[0] == e.command.request && OnConn(queue, d)[1..] == OnConn(queue[1..], d)
          else OnConn(queue, d) == OnConn(queue[1..], d))
  {
    DoneSnoc(executed, e, d);
    assert Done(executed, d) + [] == Done(executed, d);
    assert [] + OnConn(queue[1..], d) == OnConn(queue[1..], d);
  }

  lemma ExecutedQueue(s: State, s': State, e: Executed)
    requires QueueInv(s) && s.pending != [] && e.command == s.pending[0]
    requires s'.pending == s.pending[1..] && s'.executed == s.executed + [e] && s'.arrived == s.arrived
    requires |s'.conns| == |s.conns| && forall d :: 0 <= d < |s.conns| ==> s'.conns[d].link.accepted == s.conns[d].link.accepted
    ensures QueueInv(s')
  {
    assert CommandsOf(s'.executed) == CommandsOf(s.executed) + [s.pending[0]];
    assert CommandsOf(s.executed) + [s.pending[0]] + s.pending[1..] == CommandsOf(s.executed) + s.pending;
  }

  /** The counter moves although nothing is written. */
  lemma CounterKeeps(config: Config, s: State, i: nat, phase: Phase)
    requires Inv(config, s) && i < |s.clients| && s.clients[i].phase.Idle?
    requires phase.Idle? || phase.Offline?
    ensures var c := s.clients[i].(nextId := s.clients[i].nextId + 1, phase := phase);
      Inv(config, s.(clients := s.clients[i := c]))
  {
    var c := s.clients[i].(nextId := s.clients[i].nextId + 1, phase := phase);
    var s' := s.(clients := s.clients[i := c]);
    assert ClientOk(s, i);
    forall j | 0 <= j < |s'.clients| ensures ClientOk(s', j) {
      if j != i {
        ClientFrame(s, s', j);
      } else {
        forall d | 0 <= d ensures OwnedBy(s', d, i) <==> OwnedBy(s, d, i) {}
      }
    }
    forall d | 0 <= d < |s'.conns| ensures ConnOk(config, s', d) { ConnFrame(config, s, s', d); }
    ReturnedFrame(s, s');
  }

  function Asking(config: Config, s: State, i: nat, request: Request): State
    requires request.id >= 0 && i < |s.clients| && s.clients[i].at < |s.conns|
  {
    var c := s.clients[i].(nextId := request.id, phase := Awaiting(request));
    s.(clients := s.clients[i := c], conns := s.conns[c.at := Extended(config.wire, s.conns[c.at], request)])
  }

  lemma WriteKeepsClients(config: Config, s: State, i: nat, request: Request, j: nat)
    requires i < |s.clients| && j < |s.clients| && ClientOk(s, i) && ClientOk(s, j)
    requires s.clients[i].phase.Idle? && s.clients[i].at < |s.conns| && request.id == s.clients[i].nextId + 1
    ensures ClientOk(Asking(config, s, i, request), j)
  {
    var s' := Asking(config, s, i, request);
    var at := s.clients[i].at;
    forall d | 0 <= d ensures OwnedBy(s', d, j) <==> OwnedBy(s, d, j) {}
    assert OwnedBy(s, at, i);
    if j == i {
      forall d, e | 0 <= d < e && OwnedBy(s', d, i) && OwnedBy(s', e, i)
        ensures IdsWithin(s'.conns[d].asked, s'.conns[d].base, s'.conns[e].base)
      {
        assert OwnedBy(s, d, i) && OwnedBy(s, e, i);
        assert d != at;
      }
    } else {
      forall d | 0 <= d && OwnedBy(s, d, j) ensures s'.conns[d] == s.conns[d] {}
    }
  }

  lemma WriteKeeps(config: Config, s: State, i: nat, request: Request)
    requires Sound(config) && Inv(config, s)
    requires i < |s.clients| && s.clients[i].phase.Idle? && s.clients[i].at < |s.conns|
    requires request.id == s.clients[i].nextId + 1 && FitsInt64(request.id)
    requires Sendable(UpFrame(config.wire, WroteRequest(request)))
    ensures Inv(config, Asking(config, s, i, request))
  {
    var s' := Asking(config, s, i, request);
    var at := s.clients[i].at;
    assert ClientOk(s, i) && ConnOk(config, s, at);
    Writing(config.wire, s.conns[at], OnConn(s.pending, at), Done(s.executed, at), request);
    forall d | 0 <= d < |s'.conns| ensures ConnOk(config, s', d) {
      if d != at { ConnFrame(config, s, s', d); }
    }
    forall j | 0 <= j < |s'.clients| ensures ClientOk(s', j) {
      assert ClientOk(s, j);
      WriteKeepsClients(config, s, i, request, j);
    }
    forall n | 0 <= n < |s'.returned|
      ensures Vouched(s'.returned[n], s'.executed) && OwnedBy(s', s'.returned[n].conn, s'.returned[n].client)
    {
      assert OwnedBy(s, s'.returned[n].conn, s'.returned[n].client);
    }
  }

  lemma InvokeKeeps(config: Config, s: State, i: nat, command: string, params: JsonValues.Json, result: WriteResult)
    requires Sound(config) && Inv(config, s) && Enabled(config, s, Invoke(i, command, params, result))
    ensures Inv(config, Apply(config, s, Invoke(i, command, params, result)))
  {
    var request := Request(s.clients[i].nextId + 1, command, params);
    if !Sendable(UpFrame(config.wire, WroteRequest(request))) || result.WriteTimedOut? {
      CounterKeeps(config, s, i, Idle);
    } else if result.WriteBroken? {
      CounterKeeps(config, s, i, Offline);
    } else {
      WriteKeeps(config, s, i, request);
    }
  }

  /** Every step, whichever party takes it, keeps the invariant. */
  lemma StepKeepsInv(config: Config, s: State, step: Step)
    requires Sound(config) && Inv(config, s) && Enabled(config, s, step)
    ensures Inv(config, Apply(config, s, step))
  {
    match step
    case Connect(i, hello) => ConnectKeeps(config, s, i, hello);
    case ReadGreeting(i) => ReadGreetingKeeps(config, s, i);
    case Invoke(i, command, params, result) => InvokeKeeps(config, s, i, command, params, result);
    case ReadReply(i) => ReadReplyKeeps(config, s, i);
    case GiveUp(i) => PhaseKeeps(config, s, i, Idle);
    case Drop(i) => PhaseKeeps(config, s, i, Offline);
    case Receive(c, size) => ReceiveKeeps(config, s, c, size);
    case Handle(c, sessionId) => HandleKeeps(config, s, c, sessionId);
    case Execute(outcome) => ExecuteKeeps(config, s, outcome);
    case Cancel(c, kept) => CancelKeeps(config, s, c, kept);
    case PeerOpens => PeerOpensKeeps(config, s);
    case PeerWrites(c, bytes) => PeerWritesKeeps(config, s, c, bytes);
  }
}
