/** The SDK's blocking client: connecting, one exchange, and the reconnect-and-resend loop. */
module Client {
  import opened Wrappers
  import opened Framing
  import opened Messages
  import opened Groups
  import opened Errors

  // ---- The meaning of the discard loop -------------------------------------------------------------

  datatype Awaited = Found(group: Group, rest: seq<Byte>) | Starved | Desynced(error: GroupError)

  lemma GroupShrinksStream(wire: Wire, stream: seq<Byte>)
    requires ReadGroup(wire, stream).Got?
    ensures |ReadGroup(wire, stream).rest| < |stream|
  {
    ParsedIsEncoded(stream);
    var rest := ParseFrame(stream).rest;
    if ParseFrame(rest).Parsed? { ParsedIsEncoded(rest); }
  }

  /** The first group with the awaited id, past all others. */
  function AwaitReply(wire: Wire, stream: seq<Byte>, id: int): Awaited
    decreases |stream|
  {
    match ReadGroup(wire, stream)
    case Waiting => Starved
    case Rejected(e) => Desynced(e)
    case Got(g, rest) =>
      GroupShrinksStream(wire, stream);
      if g.message.Id() == id then Found(g, rest) else AwaitReply(wire, rest, id)
  }

  /** On a stream of whole groups, what is found is the first with the id, and the loop stops right behind it. */
  lemma {:induction false} AwaitFindsTheFirst(wire: Wire, gs: seq<Group>, n: nat, later: seq<Byte>, id: int)
    requires wire.Faithful() && AllWellFormed(wire, gs)
    requires n < |gs| && gs[n].message.Id() == id
    requires forall i :: 0 <= i < n ==> gs[i].message.Id() != id
    ensures AwaitReply(wire, GroupBytes(wire, gs) + later, id) == Found(gs[n], GroupBytes(wire, gs[n + 1..]) + later)
    decreases n
  {
    var others := GroupBytes(wire, gs[1..]) + later;
    assert GroupBytes(wire, gs) + later == ResponseBytes(wire, gs[0]) + others;
    ReadWritten(wire, gs[0], others);
    if n > 0 {
      AwaitFindsTheFirst(wire, gs[1..], n - 1, later, id);
      assert gs[1..][n..] == gs[n + 1..];
    }
  }

  lemma {:induction false} AwaitedHasTheId(wire: Wire, stream: seq<Byte>, id: int)
    ensures AwaitReply(wire, stream, id).Found? ==> AwaitReply(wire, stream, id).group.message.Id() == id
    decreases |stream|
  {
    var r := ReadGroup(wire, stream);
    if r.Got? && r.group.message.Id() != id {
      GroupShrinksStream(wire, stream);
      AwaitedHasTheId(wire, r.rest, id);
    }
  }

  /** What is left of a stream after reading `n` groups, none with the awaited id. */
  function Skipped(wire: Wire, stream: seq<Byte>, id: int, n: nat): Option<seq<Byte>> {
    if n == 0 then Some(stream)
    else
      match Skipped(wire, stream, id, n - 1)
      case None => None
      case Some(rest) =>
        var r := ReadGroup(wire, rest);
        if r.Got? && r.group.message.Id() != id then Some(r.rest) else None
  }

  /** Skipping does not change what is awaited. */
  lemma {:induction false} SkippingAwaits(wire: Wire, stream: seq<Byte>, id: int, n: nat)
    ensures var rest := Skipped(wire, stream, id, n);
      rest.Some? ==> AwaitReply(wire, stream, id) == AwaitReply(wire, rest.value, id)
  {
    if n > 0 {
      SkippingAwaits(wire, stream, id, n - 1);
      var before := Skipped(wire, stream, id, n - 1);
      if before.Some? && ReadGroup(wire, before.value).Got? { GroupShrinksStream(wire, before.value); }
    }
  }

  // ---- The environment -------------------------------------------------------------------------------

  /** What answers a connection attempt: a refusal, or a peer that behaves in some way or other. */
  datatype Dialled = Refused | Answers(stream: seq<Byte>, schedule: seq<RecvEvent>, writes: seq<WriteResult>)

  /** The world outside the client: coming connections, and for each discard whether the deadline has passed. */
  class World {
    const network: Network
    var dials: seq<Dialled>
    var late: seq<bool>

    constructor (dials: seq<Dialled>, late: seq<bool>)
      ensures this.dials == dials && this.late == late && network.lines == [] && fresh(network)
    {
      this.network := new Network();
      this.dials, this.late := dials, late;
    }

    /** A refused attempt gives no socket; no more attempts are answered than `dials` has. */
    method Dial() returns (socket: Socket?)
      modifies this`dials, network
      ensures dials == if old(dials) == [] then [] else old(dials)[1..]
      ensures socket != null <==> old(dials) != [] && old(dials)[0].Answers?
      ensures socket == null ==> network.lines == old(network.lines)
      ensures socket != null ==>
        && fresh(socket) && socket.network == network && socket.line == |old(network.lines)|
        && network.lines == old(network.lines) + [[]]
        && socket.stream == old(dials)[0].stream && socket.schedule == old(dials)[0].schedule
        && socket.writes == old(dials)[0].writes
    {
      if dials == [] { return null; }
      var next := dials[0];
      dials := dials[1..];
      match next
      case Refused => return null;
      case Answers(stream, schedule, writes) => socket := new Socket(network, stream, schedule, writes);
    }

    method DeadlinePassed() returns (passed: bool)
      modifies this`late
      ensures passed == Late(old(late), 0)
      ensures late == if old(late) == [] then [] else old(late)[1..]
    {
      passed := false;
      if late != [] { passed, late := late[0], late[1..]; }
    }
  }

  /** The deadline has passed when it is looked at for the k-th time. */
  predicate Late(late: seq<bool>, k: int) {
    0 <= k < |late| && late[k]
  }

  predicate NotLateBefore(late: seq<bool>, n: int) {
    forall k :: 0 <= k < n ==> !Late(late, k)
  }

  predicate FirstLate(late: seq<bool>, n: int) {
    Late(late, n) && NotLateBefore(late, n)
  }

  function Dropped<T>(s: seq<T>, n: nat): seq<T> {
    if n <= |s| then s[n..] else []
  }

  lemma OneMoreLook(late: seq<bool>, n: nat)
    ensures Late(Dropped(late, n), 0) == Late(late, n)
    ensures Dropped(late, n + 1) == if Dropped(late, n) == [] then [] else Dropped(late, n)[1..]
    ensures NotLateBefore(late, n) && !Late(late, n) ==> NotLateBefore(late, n + 1)
  {
  }

  // ---- The client ---------------------------------------------------------------------------------------

  /** What a call can raise: an SDK exception of some class, or a failure to read JSON text. */
  datatype Exception = Raised(class_: ErrorClass) | JsonDecodeError
  {
    predicate Retryable() {
      Raised? && Retried(class_)
    }
  }

  predicate Succeeded(g: Group) {
    g.message.Answer? && g.message.reply.success
  }

  /** The exception for a reply that reports a failure; a missing code counts as INTERNAL_ERROR. */
  function Reported(g: Group): (e: Exception)
    ensures !e.Retryable()
  {
    Raised(ClassFor(if g.message.Answer? && g.message.reply.error.Some? then g.message.reply.error.value.code
                    else "INTERNAL_ERROR"))
  }

  /** The exception for what is no reply. */
  function Refusal(e: GroupError): Exception {
    if e.BadJson? then JsonDecodeError else Raised(ProtocolError)
  }

  /** What reading one reply gives, where the connection holds until the peer closes it. */
  function ReplyIn(wire: Wire, stream: seq<Byte>): Result<Group, Exception> {
    match ReadGroup(wire, stream)
    case Got(g, _) => Ok(g)
    case Rejected(e) => Err(Refusal(e))
    case Waiting => Err(Raised(AgentConnectionError))
  }

  /** What awaiting a reply gives then. */
  function AwaitedIn(wire: Wire, stream: seq<Byte>, id: int): Result<Group, Exception> {
    match AwaitReply(wire, stream, id)
    case Found(g, _) => Ok(g)
    case Desynced(e) => Err(Refusal(e))
    case Starved => Err(Raised(AgentConnectionError))
  }

  /** The exception for a write that fails. */
  function WriteFailure(result: WriteResult): Exception {
    if result.WriteTimedOut? then Raised(CommandTimeout) else Raised(AgentConnectionError)
  }

  predicate CanWrite(writes: seq<WriteResult>) {
    writes == [] || writes[0].WriteDone?
  }

  /** What `_perform_handshake` makes of the frame it reads. */
  function Greeting(wire: Wire, hello: Hello, f: Frame): Result<Down, Exception> {
    if f.kind != Json then Err(Raised(ProtocolError))
    else
      match wire.decodeDown(f.payload)
      case None => Err(JsonDecodeError)
      case Some(Answer(reply)) =>
        if reply.success then Err(Raised(ProtocolError)) else Err(Reported(Group(Answer(reply), None)))
      case Some(Welcome(version, agentVersion, sessionId, device)) =>
        if version == hello.protocolVersion then Ok(Welcome(version, agentVersion, sessionId, device))
        else Err(Raised(ProtocolError))
  }

  /** The frame's meaning: a welcome of the same version, a failure of the agent's, text that is no message, or a breach of protocol. */
  lemma GreetingMeans(wire: Wire, hello: Hello, f: Frame)
    ensures var (r, message) := (Greeting(wire, hello, f), if f.kind == Json then wire.decodeDown(f.payload) else None);
      && (r.Ok? <==> message.Some? && message.value.Welcome? && message.value.protocolVersion == hello.protocolVersion)
      && (r.Ok? ==> Some(r.value) == message)
      && (r == Err(JsonDecodeError) <==> f.kind == Json && message.None?)
      && (message.Some? && message.value.Answer? && !message.value.reply.success && message.value.reply.error.Some? ==>
            r == Err(Raised(ClassFor(message.value.reply.error.value.code))))
      && (f.kind != Json || (message.Some? && message.value.Answer? && message.value.reply.success)
          || (message.Some? && message.value.Welcome? && message.value.protocolVersion != hello.protocolVersion) ==>
            r == Err(Raised(ProtocolError)))
  {
  }

  /** How a handshake ends where writing and reading do not fail. */
  function HandshakeOutcome(wire: Wire, hello: Hello, stream: seq<Byte>): Result<Down, Exception> {
    if !Sendable(UpFrame(wire, WroteHello(hello))) then Err(Raised(ProtocolError))
    else
      match ParseFrame(stream)
      case Parsed(f, _) => Greeting(wire, hello, f)
      case Malformed(_) => Err(Raised(ProtocolError))
      case Incomplete => Err(Raised(AgentConnectionError))
  }

  /** What answers the k-th attempt to connect: no more are answered than there are dials. */
  function DialAt(dials: seq<Dialled>, k: nat): Dialled {
    if k < |dials| then dials[k] else Dialled.Refused
  }

  /**
   How a handshake ends: with the failure to write it, if that fails; else with what the stream says, or,
   if reading fails before that, with a connection error.
  */
  predicate HandshakeEnds(wire: Wire, hello: Hello, stream: seq<Byte>, schedule: seq<RecvEvent>, writes: seq<WriteResult>,
                          outcome: Result<Down, Exception>) {
    if Sendable(UpFrame(wire, WroteHello(hello))) && !CanWrite(writes) then outcome == Err(WriteFailure(writes[0]))
    else
      || outcome == HandshakeOutcome(wire, hello, stream)
      || (outcome == Err(Raised(AgentConnectionError)) && !NoFailures(schedule) && Sendable(UpFrame(wire, WroteHello(hello))))
  }

  predicate AttemptEnds(wire: Wire, hello: Hello, dial: Dialled, outcome: Result<Down, Exception>) {
    if dial.Refused? then outcome == Err(Raised(AgentConnectionError))
    else HandshakeEnds(wire, hello, dial.stream, dial.schedule, dial.writes, outcome)
  }

  /** The one outcome of an attempt to connect after which there may be another. */
  predicate NotConnected(outcome: Result<Down, Exception>) {
    outcome == Err(Raised(AgentConnectionError))
  }

  lemma NextDial(dials: seq<Dialled>, n: nat)
    ensures DialAt(Dropped(dials, n), 0) == DialAt(dials, n)
  {
  }

  lemma DropOneMore<T>(s: seq<T>, n: nat)
    ensures Dropped(s, n + 1) == Dropped(Dropped(s, n), 1)
  {
  }

  // ---- What a client does on the network -----------------------------------------------------------------

  datatype Act = Opened | Wrote(w: Written)

  /** What the acts leave on the wire: a line for each socket opened, with the frames written on it while it was the last. */
  function Lines(wire: Wire, acts: seq<Act>): seq<seq<Byte>> {
    if acts == [] then []
    else
      var before := Lines(wire, acts[..|acts| - 1]);
      match acts[|acts| - 1]
      case Opened => before + [[]]
      case Wrote(w) => if before == [] then [] else SaidOn(before, |before| - 1, Encode(UpFrame(wire, w)))
  }

  /** A handshake is this client's own, and the first thing on its socket. */
  predicate InOrder(hello: Hello, acts: seq<Act>) {
    acts == [] ||
    (&& InOrder(hello, acts[..|acts| - 1])
     && (acts[|acts| - 1] == Wrote(WroteHello(hello)) ==> |acts| > 1 && acts[|acts| - 2] == Opened)
     && (acts[|acts| - 1].Wrote? && acts[|acts| - 1].w.WroteHello? ==> acts[|acts| - 1].w.hello == hello))
  }

  lemma OneMoreAct(wire: Wire, hello: Hello, acts: seq<Act>, act: Act)
    ensures Lines(wire, acts + [act]) ==
      match act
      case Opened => Lines(wire, acts) + [[]]
      case Wrote(w) =>
        if Lines(wire, acts) == [] then [] else SaidOn(Lines(wire, acts), |Lines(wire, acts)| - 1, Encode(UpFrame(wire, w)))
    ensures InOrder(hello, acts) && (act.Wrote? && act.w.WroteHello? ==> act.w.hello == hello && acts != [] && acts[|acts| - 1] == Opened)
      ==> InOrder(hello, acts + [act])
  {
    assert (acts + [act])[..|acts|] == acts;
  }

  function RequestsIn(acts: seq<Act>): seq<Request> {
    if acts == [] then []
    else (if acts[0].Wrote? && acts[0].w.WroteRequest? then [acts[0].w.request] else []) + RequestsIn(acts[1..])
  }

  lemma AttemptAsksNothing(hello: Hello, acts: seq<Act>)
    requires acts == [] || acts == [Opened] || acts == [Opened, Wrote(WroteHello(hello))]
    ensures RequestsIn(acts) == [] && Opens(acts) <= 1
  {
    if |acts| == 2 {
      assert acts == [Opened] + [Wrote(WroteHello(hello))];
      ActsAppended([Opened], [Wrote(WroteHello(hello))]);
    }
  }

  lemma Regrouped<T>(a: seq<T>, b: seq<T>, c: seq<T>)
    ensures a + (b + c) == a + b + c
  {
  }

  function Opens(acts: seq<Act>): nat {
    if acts == [] then 0 else (if acts[0].Opened? then 1 else 0) + Opens(acts[1..])
  }

  lemma {:induction false} ActsAppended(a: seq<Act>, b: seq<Act>)
    ensures RequestsIn(a + b) == RequestsIn(a) + RequestsIn(b) && Opens(a + b) == Opens(a) + Opens(b)
    decreases |a|
  {
    if a == [] {
      assert a + b == b;
    } else {
      assert (a + b)[0] == a[0] && (a + b)[1..] == a[1..] + b;
      ActsAppended(a[1..], b);
      var head := if a[0].Wrote? && a[0].w.WroteRequest? then [a[0].w.request] else [];
      assert head + (RequestsIn(a[1..]) + RequestsIn(b)) == head + RequestsIn(a[1..]) + RequestsIn(b);
    }
  }

  /** One command asked again and again: ids grow, above `low` and up to `high`. */
  predicate Resends(asked: seq<Request>, low: nat, high: int, command: string, params: JsonValues.Json) {
    asked == [] ||
    (var last := asked[|asked| - 1];
     && last.command == command && last.params == params && low < last.id <= high
     && Resends(asked[..|asked| - 1], low, last.id - 1, command, params))
  }

  lemma {:induction false} ResentIdsGrow(asked: seq<Request>, low: nat, high: int, command: string, params: JsonValues.Json)
    requires Resends(asked, low, high, command, params)
    ensures forall r <- asked :: r.command == command && r.params == params && low < r.id <= high
    ensures forall i, j :: 0 <= i < j < |asked| ==> asked[i].id < asked[j].id
    decreases |asked|
  {
    if asked != [] {
      var before, last := asked[..|asked| - 1], asked[|asked| - 1];
      ResentIdsGrow(before, low, last.id - 1, command, params);
      assert asked == before + [last];
      forall i, j | 0 <= i < j < |asked| ensures asked[i].id < asked[j].id {
        if j < |before| { assert before[i].id < before[j].id; } else { assert before[i] in before; }
      }
    }
  }

  /** What lies before a client: no socket, or one with all that will happen on it; and the clock. */
  datatype Situation = Situation(
    connected: bool, stream: seq<Byte>, schedule: seq<RecvEvent>, writes: seq<WriteResult>, late: seq<bool>)

  /** History: the situation at the start of an exchange, the request it was for, how it ended, and the stream it left. */
  datatype Exchange = Exchange(start: Situation, request: Request, outcome: Result<Group, Exception>, rest: seq<Byte>)

  /** Without failures, with patience, and if the reply is there to be read: nothing can go wrong. */
  predicate Favourable(wire: Wire, start: Situation, request: Request) {
    && start.connected && Sendable(UpFrame(wire, WroteRequest(request)))
    && NoFailures(start.schedule) && CanWrite(start.writes) && start.late == []
    && AwaitReply(wire, start.stream, request.id).Found?
  }

  /**
   How an exchange ends, where that can be said beforehand: without a socket, with a command that is too
   long, with a write that fails, or with reads that do not fail and no deadline.
  */
  function Foreseen(wire: Wire, start: Situation, request: Request): Option<Result<Group, Exception>> {
    if !start.connected then Some(Err(Raised(SessionLost)))
    else if !Sendable(UpFrame(wire, WroteRequest(request))) then Some(Err(Raised(ProtocolError)))
    else if !CanWrite(start.writes) then Some(Err(WriteFailure(start.writes[0])))
    else if NoFailures(start.schedule) && start.late == [] then Some(AwaitedIn(wire, start.stream, request.id))
    else None
  }

  /** Otherwise it ends with what the stream says, or times out, or loses the connection. */
  predicate Endures(wire: Wire, start: Situation, request: Request, outcome: Result<Group, Exception>) {
    outcome != Err(Raised(CommandTimeout)) && outcome != Err(Raised(AgentConnectionError)) ==> outcome == AwaitedIn(wire, start.stream, request.id)
  }

  /**
   The k-th exchange was lost for want of a socket if and only if it had none; its reply is the first
   on the stream with its id, and nothing behind it was read; and it ended as foreseen, if that was.
  */
  predicate EndsWell(wire: Wire, exchanges: seq<Exchange>, k: nat)
    requires k < |exchanges|
  {
    var met := exchanges[k];
    && (met.outcome == Err(Raised(SessionLost)) <==> !met.start.connected)
    && (met.outcome.Ok? ==> AwaitReply(wire, met.start.stream, met.request.id) == Found(met.outcome.value, met.rest))
    && match Foreseen(wire, met.start, met.request)
       case Some(outcome) => met.outcome == outcome
       case None => Endures(wire, met.start, met.request, met.outcome)
  }

  ghost predicate AllEndWell(wire: Wire, exchanges: seq<Exchange>) {
    forall k :: 0 <= k < |exchanges| ==> EndsWell(wire, exchanges, k)
  }

  lemma OneMoreExchange(wire: Wire, exchanges: seq<Exchange>, met: Exchange)
    requires AllEndWell(wire, exchanges) && EndsWell(wire, [met], 0)
    ensures AllEndWell(wire, exchanges + [met])
  {
    var all := exchanges + [met];
    forall k | 0 <= k < |all| ensures EndsWell(wire, all, k) {
      if k < |exchanges| { assert EndsWell(wire, exchanges, k); }
    }
  }

  /** History: one turn of a call, an exchange and the attempts to connect that came after it. */
  datatype Try = Try(met: Exchange, reconnecting: seq<Result<Down, Exception>>)

  /** The one kind of exchange that is followed by another: the connection failed, or there was none. */
  predicate Unsettled(met: Exchange) {
    met.outcome == Err(Raised(AgentConnectionError)) || met.outcome == Err(Raised(SessionLost))
  }

  /** Attempts to connect, up to `retries + 1`: each but the last failed for the connection, and the last may have if there were no more. */
  predicate ConnectLog(log: seq<Result<Down, Exception>>, retries: nat) {
    && 1 <= |log| <= retries + 1
    && (forall k :: 0 <= k < |log| - 1 ==> NotConnected(log[k]))
    && (NotConnected(log[|log| - 1]) ==> |log| == retries + 1)
  }

  /** Attempts that all failed for the connection, each ending as its dial was answered. */
  ghost predicate AllFailed(wire: Wire, hello: Hello, dials: seq<Dialled>, log: seq<Result<Down, Exception>>) {
    (forall k :: 0 <= k < |log| ==> NotConnected(log[k])) && AllEnd(wire, hello, dials, log)
  }

  ghost predicate AllEnd(wire: Wire, hello: Hello, dials: seq<Dialled>, log: seq<Result<Down, Exception>>) {
    forall k :: 0 <= k < |log| ==> AttemptEnds(wire, hello, DialAt(dials, k), log[k])
  }

  lemma OneMoreAttempt(wire: Wire, hello: Hello, dials: seq<Dialled>, log: seq<Result<Down, Exception>>,
                       outcome: Result<Down, Exception>, retries: nat)
    requires |log| <= retries && AllFailed(wire, hello, dials, log) && AttemptEnds(wire, hello, DialAt(dials, |log|), outcome)
    ensures AllEnd(wire, hello, dials, log + [outcome])
    ensures NotConnected(outcome) ==> AllFailed(wire, hello, dials, log + [outcome])
    ensures (NotConnected(outcome) ==> |log| == retries) ==> ConnectLog(log + [outcome], retries)
  {
  }

  /** The attempts of `connect(retries=1)`: one, or after a connection error a second. */
  predicate OneOrTwo(log: seq<Result<Down, Exception>>) {
    (|log| == 1 && !NotConnected(log[0])) || (|log| == 2 && NotConnected(log[0]))
  }

  lemma OneRetry(log: seq<Result<Down, Exception>>)
    requires ConnectLog(log, 1)
    ensures OneOrTwo(log)
  {
  }

  predicate Reconnected(log: seq<Result<Down, Exception>>) {
    log != [] && log[|log| - 1].Ok?
  }

  /** Something else than the connection failed in the last attempt. */
  predicate TurnedDown(log: seq<Result<Down, Exception>>) {
    log != [] && log[|log| - 1].Err? && !NotConnected(log[|log| - 1])
  }

  /**
   Turn `k` was not the last: it met a connection error, the client tried to connect, and the next
   turn has a socket if that worked.
  */
  predicate Resumed(tries: seq<Try>, k: nat)
    requires k < |tries| - 1
  {
    var (t, next) := (tries[k], tries[k + 1]);
    && Unsettled(t.met) && OneOrTwo(t.reconnecting) && !TurnedDown(t.reconnecting)
    && (next.met.start.connected <==> Reconnected(t.reconnecting))
    && (next.met.outcome == Err(Raised(SessionLost)) <==> !next.met.start.connected)
  }

  /** After a connection error, and only then, the client tries to connect again, if there are turns left. */
  predicate Followed(t: Try, turnsLeft: bool) {
    if Unsettled(t.met) && turnsLeft then OneOrTwo(t.reconnecting) else t.reconnecting == []
  }

  /**
   What a turn makes of the call. A reply that says `success` is returned, one that reports a failure
   is raised as the exception of its own code, and any exception but that of a failed connection goes
   through. After a failed connection there is another turn, unless none is left, or the agent or its
   protocol turned the new connection down.
  */
  function Verdict(t: Try, turnsLeft: bool): Option<Result<Group, Exception>> {
    match t.met.outcome
    case Ok(g) =>
      Some(if g.message.Answer? && g.message.reply.success then Ok(g)
           else Err(Raised(ClassFor(
             if g.message.Answer? && g.message.reply.error.Some? then g.message.reply.error.value.code else "INTERNAL_ERROR"))))
    case Err(e) =>
      if !Unsettled(t.met) then Some(Err(e))
      else if !turnsLeft then Some(Err(Raised(SessionLost)))
      else if TurnedDown(t.reconnecting) then Some(Err(t.reconnecting[|t.reconnecting| - 1].error))
      else None
  }

  /** What the turns of a call make of it, if the last of them ends it. */
  function Ending(tries: seq<Try>, turnsLeft: bool): Option<Result<Group, Exception>> {
    if tries == [] || !Followed(tries[|tries| - 1], turnsLeft) then None else Verdict(tries[|tries| - 1], turnsLeft)
  }

  /** The turns of one call so far: the first began in `start` and was for `request`, and each other took up where the one before ended. */
  ghost predicate Turns(tries: seq<Try>, start: Situation, request: Request) {
    && (tries != [] ==>
      && tries[0].met.start == start && tries[0].met.request == request
      && (tries[0].met.outcome == Err(Raised(SessionLost)) <==> !start.connected))
    && forall k :: 0 <= k < |tries| - 1 ==> Resumed(tries, k)
  }

  lemma OneRequest(acts: seq<Act>)
    requires |acts| <= 1 && forall a <- acts :: a.Wrote? && a.w.WroteRequest?
    ensures RequestsIn(acts) == (if acts == [] then [] else [acts[0].w.request]) && Opens(acts) == 0
  {
    assert acts != [] ==> acts[1..] == [];
  }

  /** What `n` turns of one call do: each opens two connections at most, and asks once at most, always for this command. */
  predicate OfOneCall(n: nat, done: seq<Act>, low: nat, high: nat, command: string, params: JsonValues.Json) {
    && low <= high <= low + n && Opens(done) <= 2 * n && |RequestsIn(done)| <= n
    && Resends(RequestsIn(done), low, high, command, params)
  }

  lemma {:induction false} AskedMore(asked: seq<Request>, more: seq<Request>, low: nat, high: nat, id: nat,
                                     command: string, params: JsonValues.Json)
    requires Resends(asked, low, high, command, params) && low <= high <= id
    requires more == [] || (high < id && more == [Request(id, command, params)])
    ensures Resends(asked + more, low, id, command, params)
  {
    assert more == [] ==> asked + more == asked;
    assert more != [] ==> (asked + more)[..|asked|] == asked;
  }

  function Mets(tries: seq<Try>): seq<Exchange> {
    if tries == [] then [] else Mets(tries[..|tries| - 1]) + [tries[|tries| - 1].met]
  }

  lemma {:induction false} MetsAt(tries: seq<Try>)
    ensures |Mets(tries)| == |tries| && forall k :: 0 <= k < |tries| ==> Mets(tries)[k] == tries[k].met
    decreases |tries|
  {
    if tries != [] { MetsAt(tries[..|tries| - 1]); }
  }

  /** Where a call begins. */
  datatype Call = Call(start: Situation, counter: nat, command: string, params: JsonValues.Json, acts: seq<Act>, exchanges: seq<Exchange>)

  /** What a call has left behind after the turns `tries`: they are in the logs, and it has done nothing but `done`. */
  ghost predicate Left(c: Call, tries: seq<Try>, done: seq<Act>, nextId: nat, acts: seq<Act>, exchanges: seq<Exchange>) {
    && Turns(tries, c.start, Request(c.counter + 1, c.command, c.params)) && exchanges == c.exchanges + Mets(tries)
    && acts == c.acts + done && OfOneCall(|tries|, done, c.counter, nextId, c.command, c.params)
  }

  /** None of these turns has ended the call, and the next one begins `now`. */
  predicate Open(c: Call, tries: seq<Try>, now: Situation, nextId: nat) {
    if tries == [] then now == c.start && nextId == c.counter
    else
      var last := tries[|tries| - 1];
      Followed(last, true) && Verdict(last, true) == None && (now.connected <==> Reconnected(last.reconnecting))
  }

  lemma TurnAdded(c: Call, tries: seq<Try>, t: Try, nextId: nat)
    requires Turns(tries, c.start, Request(c.counter + 1, c.command, c.params)) && Open(c, tries, t.met.start, nextId) && t.met.request == Request(nextId + 1, c.command, c.params)
    requires t.met.outcome == Err(Raised(SessionLost)) <==> !t.met.start.connected
    ensures Turns(tries + [t], c.start, Request(c.counter + 1, c.command, c.params))
  {
    var all := tries + [t];
    forall k | 0 <= k < |all| - 1 ensures Resumed(all, k) {
      if k < |tries| - 1 { assert Resumed(tries, k); }
    }
  }

  lemma DoneMore(n: nat, done: seq<Act>, more: seq<Act>, low: nat, high: nat, id: nat, command: string, params: JsonValues.Json)
    requires OfOneCall(n, done, low, high, command, params) && high <= id <= high + 1 && Opens(more) <= 2
    requires RequestsIn(more) == [] || (high < id && RequestsIn(more) == [Request(id, command, params)])
    ensures OfOneCall(n + 1, done + more, low, id, command, params)
  {
    ActsAppended(done, more);
    AskedMore(RequestsIn(done), RequestsIn(more), low, high, id, command, params);
  }

  lemma OneMoreTurn(c: Call, tries: seq<Try>, t: Try, done: seq<Act>, more: seq<Act>, nextId: nat, id: nat,
                    acts: seq<Act>, exchanges: seq<Exchange>)
    requires Left(c, tries, done, nextId, acts, exchanges) && Open(c, tries, t.met.start, nextId) && t.met.request == Request(nextId + 1, c.command, c.params)
    requires nextId <= id <= nextId + 1 && Opens(more) <= 2
    requires RequestsIn(more) == [] || (nextId < id && RequestsIn(more) == [Request(id, c.command, c.params)])
    requires t.met.outcome == Err(Raised(SessionLost)) <==> !t.met.start.connected
    ensures Left(c, tries + [t], done + more, id, acts + more, exchanges + [t.met])
  {
    TurnAdded(c, tries, t, nextId);
    DoneMore(|tries|, done, more, c.counter, nextId, id, c.command, c.params);
    assert (tries + [t])[..|tries|] == tries;
    Regrouped(c.exchanges, Mets(tries), [t.met]);
    Regrouped(c.acts, done, more);
  }

  /** A call begun where nothing can go wrong has its reply after one turn. */
  lemma SmoothCall(wire: Wire, c: Call, tries: seq<Try>, done: seq<Act>, nextId: nat, acts: seq<Act>, exchanges: seq<Exchange>)
    requires Left(c, tries, done, nextId, acts, exchanges) && AllEndWell(wire, exchanges) && tries != []
    requires Favourable(wire, c.start, Request(c.counter + 1, c.command, c.params))
    ensures |tries| == 1 && tries[0].met.outcome.Ok?
  {
    MetsAt(tries);
    assert exchanges[|c.exchanges|] == tries[0].met && EndsWell(wire, exchanges, |c.exchanges|);
    assert |tries| > 1 ==> Resumed(tries, 0);
  }

  /** The last exchange of a call is in the log, and so ended well. */
  lemma LastEndsWell(wire: Wire, c: Call, tries: seq<Try>, done: seq<Act>, nextId: nat, acts: seq<Act>, exchanges: seq<Exchange>)
    requires Left(c, tries, done, nextId, acts, exchanges) && AllEndWell(wire, exchanges) && tries != []
    ensures var met := tries[|tries| - 1].met;
      met.outcome.Ok? ==> AwaitReply(wire, met.start.stream, met.request.id) == Found(met.outcome.value, met.rest)
  {
    MetsAt(tries);
    assert exchanges[|exchanges| - 1] == tries[|tries| - 1].met && EndsWell(wire, exchanges, |exchanges| - 1);
  }

  lemma AskedThenOpened(before: seq<Act>, asked: seq<Act>, more: seq<Act>)
    requires Opens(asked) == 0 && RequestsIn(more) == [] && Opens(more) <= 2
    ensures before + asked + more == before + (asked + more)
    ensures RequestsIn(asked + more) == RequestsIn(asked) && Opens(asked + more) <= 2
  {
    ActsAppended(asked, more);
    NothingMore(RequestsIn(asked));
    Regrouped(before, asked, more);
  }

  lemma NothingMore<T>(s: seq<T>)
    ensures s + [] == s
  {
  }

  lemma AnotherTurn(met: Exchange, log: seq<Result<Down, Exception>>)
    requires Unsettled(met) && OneOrTwo(log)
    ensures Verdict(Try(met, log), true) == if TurnedDown(log) then Some(Err(log[|log| - 1].error)) else None
    ensures !TurnedDown(log) ==> (Reconnected(log) <==> !NotConnected(log[|log| - 1]))
  {
  }

  class ControllerClient {
    const wire: Wire
    const hello: Hello
    const maxRetries: nat
    const world: World
    var nextId: nat
    var socket: Socket?
    var reader: FrameReader?
    /** History: what this client has done on the network, and every exchange. */
    ghost var acts: seq<Act>
    ghost var exchanges: seq<Exchange>

    constructor (wire: Wire, hello: Hello, maxRetries: nat, world: World)
      requires world.network.lines == []
      ensures Valid() && AllEndWell(wire, exchanges) && socket == null && nextId == 0 && acts == [] && exchanges == []
      ensures this.wire == wire && this.hello == hello && this.maxRetries == maxRetries && this.world == world
    {
      this.wire, this.hello, this.maxRetries, this.world := wire, hello, maxRetries, world;
      nextId, socket, reader, acts, exchanges := 0, null, null, [], [];
    }

    ghost predicate Connected()
      reads this
    {
      socket != null && reader != null && reader.socket == socket
    }

    /** The socket is the one opened last, and what is on the wire is what was written, whole, and nothing else. */
    ghost predicate Valid()
      reads this, world.network
    {
      && ((socket == null && reader == null) || Connected())
      && (socket != null ==> socket.network == world.network && socket.line == |world.network.lines| - 1)
      && world.network.lines == Lines(wire, acts) && InOrder(hello, acts)
    }

    /** The counter survives: closing forgets the socket and nothing else. */
    method Close()
      requires Valid()
      modifies this`socket, this`reader
      ensures Valid() && socket == null
    {
      socket, reader := null, null;
    }

    /** One frame on the current socket, whole or not at all. */
    method SendJson(w: Written) returns (r: Result<(), Exception>)
      requires Valid() && socket != null
      requires w.WroteHello? ==> w.hello == hello && acts != [] && acts[|acts| - 1] == Opened
      modifies this`acts, world.network, socket`writes
      ensures Valid() && acts == if r.Ok? then old(acts) + [Wrote(w)] else old(acts)
      ensures r == if !Sendable(UpFrame(wire, w)) then Err(Raised(ProtocolError))
                   else if old(socket.writes) == [] || old(socket.writes)[0].WriteDone? then Ok(())
                   else if old(socket.writes)[0].WriteTimedOut? then Err(Raised(CommandTimeout))
                   else Err(Raised(AgentConnectionError))
    {
      var text := UpFrame(wire, w).payload;
      if |text| > MAX_PAYLOAD_SIZE { return Err(Raised(ProtocolError)); }
      var written := socket.SendAll(Encode(Frame(Json, text)));
      match written
      case WriteTimedOut => return Err(Raised(CommandTimeout));
      case WriteBroken => return Err(Raised(AgentConnectionError));
      case WriteDone =>
        OneMoreAct(wire, hello, acts, Wrote(w));
        acts := acts + [Wrote(w)];
        return Ok(());
    }

    method ReadFrame() returns (r: Result<Frame, Exception>)
      requires Connected()
      modifies socket`stream, socket`schedule
      ensures r.Ok? ==> ParseFrame(old(socket.stream)) == Parsed(r.value, socket.stream)
      ensures r.Err? ==> r.error == Raised(ProtocolError) || r.error == Raised(AgentConnectionError)
      ensures r == Err(Raised(ProtocolError)) ==> ParseFrame(old(socket.stream)).Malformed?
      ensures NoFailures(old(socket.schedule)) ==> NoFailures(socket.schedule)
      ensures NoFailures(old(socket.schedule)) ==>
        && (r.Ok? <==> ParseFrame(old(socket.stream)).Parsed?)
        && (r == Err(Raised(ProtocolError)) <==> ParseFrame(old(socket.stream)).Malformed?)
    {
      var f := reader.ReadFrame();
      match f
      case Ok(frame) => return Ok(frame);
      case Err(Protocol(_)) => return Err(Raised(ProtocolError));
      case Err(_) => return Err(Raised(AgentConnectionError));
    }

    /** One group off the stream, as the discard loop reads it. */
    method ReadReply() returns (r: Result<Group, Exception>)
      requires Connected()
      modifies socket`stream, socket`schedule
      ensures r.Ok? ==> ReadGroup(wire, old(socket.stream)) == Got(r.value, socket.stream)
      ensures r != Err(Raised(AgentConnectionError)) ==> r == ReplyIn(wire, old(socket.stream))
      ensures NoFailures(old(socket.schedule)) ==> NoFailures(socket.schedule) && r == ReplyIn(wire, old(socket.stream))
    {
      var first := ReadFrame();
      if first.Err? { return Err(first.error); }
      if first.value.kind != Json { return Err(Raised(ProtocolError)); }
      var message := wire.decodeDown(first.value.payload);
      if message.None? { return Err(JsonDecodeError); }
      var descriptor := message.value.Attachment();
      if descriptor.None? { return Ok(Group(message.value, None)); }
      var second := ReadFrame();
      if second.Err? { return Err(second.error); }
      if second.value.kind != Binary { return Err(Raised(ProtocolError)); }
      if |second.value.payload| != descriptor.value.length { return Err(Raised(ProtocolError)); }
      return Ok(Group(message.value, Some(second.value.payload)));
    }

    /** One turn of the discard loop, when it has skipped `n` groups since `start`: the awaited reply, a failure, or one more group to discard. */
    method ReadTurn(id: int, ghost start: seq<Byte>, ghost n: nat) returns (done: bool, r: Result<Group, Exception>)
      requires Connected() && Skipped(wire, start, id, n) == Some(socket.stream)
      modifies socket`stream, socket`schedule
      ensures done && r.Ok? ==> AwaitReply(wire, start, id) == Found(r.value, socket.stream)
      ensures done && r != Err(Raised(AgentConnectionError)) ==> r == AwaitedIn(wire, start, id)
      ensures !done ==> Skipped(wire, start, id, n + 1) == Some(socket.stream) && |socket.stream| < |old(socket.stream)|
      ensures NoFailures(old(socket.schedule)) ==> NoFailures(socket.schedule) && (done ==> r == AwaitedIn(wire, start, id))
    {
      SkippingAwaits(wire, start, id, n);
      r := ReadReply();
      done := r.Err? || r.value.message.Id() == id;
      if !done { GroupShrinksStream(wire, old(socket.stream)); }
    }

    /** The n-th look at the clock. */
    method LookAtClock(ghost looks: seq<bool>, ghost n: nat) returns (late: bool)
      requires world.late == Dropped(looks, n) && NotLateBefore(looks, n)
      modifies world`late
      ensures world.late == Dropped(looks, n + 1) && if late then FirstLate(looks, n) else NotLateBefore(looks, n + 1)
    {
      OneMoreLook(looks, n);
      late := world.DeadlinePassed();
    }

    /**
     The discard loop: reads groups until one has the awaited id. `discarded` others have been read
     before it ends; it times out right after the first discard by which the deadline has passed.
    */
    method AwaitMatching(id: int) returns (r: Result<Group, Exception>, ghost discarded: nat)
      requires Connected()
      modifies socket`stream, socket`schedule, world`late
      ensures r.Ok? ==> AwaitReply(wire, old(socket.stream), id) == Found(r.value, socket.stream)
      ensures Skipped(wire, old(socket.stream), id, discarded).Some?
      ensures r == Err(Raised(CommandTimeout)) ==> Skipped(wire, old(socket.stream), id, discarded) == Some(socket.stream)
      ensures if r == Err(Raised(CommandTimeout)) then FirstLate(old(world.late), discarded - 1) else NotLateBefore(old(world.late), discarded)
      ensures r != Err(Raised(CommandTimeout)) && r != Err(Raised(AgentConnectionError)) ==> r == AwaitedIn(wire, old(socket.stream), id)
      ensures NoFailures(old(socket.schedule)) && old(world.late) == [] ==> r == AwaitedIn(wire, old(socket.stream), id)
    {
      discarded := 0;
      ghost var start, looks, smooth := socket.stream, world.late, NoFailures(socket.schedule);
      while true
        invariant Skipped(wire, start, id, discarded) == Some(socket.stream)
        invariant world.late == Dropped(looks, discarded) && NotLateBefore(looks, discarded)
        invariant smooth ==> NoFailures(socket.schedule)
        decreases |socket.stream|
      {
        var done;
        done, r := ReadTurn(id, start, discarded);
        if done { return; }
        var late := LookAtClock(looks, discarded);
        discarded, r := discarded + 1, Err(Raised(CommandTimeout));
        if late { return; }
      }
    }

    /** The next id is spent first, whatever comes of the write. */
    method SendCommand(command: string, params: JsonValues.Json) returns (r: Result<(), Exception>)
      requires Valid() && socket != null
      modifies this`nextId, this`acts, world.network, socket`writes
      ensures Valid() && nextId == old(nextId) + 1
      ensures var request := WroteRequest(Request(nextId, command, params));
        && acts == (if r.Ok? then old(acts) + [Wrote(request)] else old(acts))
        && r == if !Sendable(UpFrame(wire, request)) then Err(Raised(ProtocolError))
                else if !CanWrite(old(socket.writes)) then Err(WriteFailure(old(socket.writes)[0])) else Ok(())
    {
      nextId := nextId + 1;
      r := SendJson(WroteRequest(Request(nextId, command, params)));
    }

    ghost function Now(): Situation
      reads this, socket, world
    {
      if socket == null then Situation(false, [], [], [], world.late)
      else Situation(true, socket.stream, socket.schedule, socket.writes, world.late)
    }

    /**
     One exchange: a fresh id, at most one frame written, whatever comes of it, and then replies are
     read and discarded until one carries that id. The reply returned is the first such on the
     stream, and nothing behind it has been read.
    */
    method InvokeOnce(command: string, params: JsonValues.Json) returns (r: Result<Group, Exception>, ghost done: seq<Act>)
      requires Valid() && AllEndWell(wire, exchanges)
      modifies this`nextId, this`acts, this`exchanges, world`late, world.network, socket
      ensures Valid() && AllEndWell(wire, exchanges)
      ensures exchanges == old(exchanges) +
        [Exchange(old(Now()), Request(old(nextId) + 1, command, params), r, if socket == null then [] else socket.stream)]
      ensures match Foreseen(wire, old(Now()), Request(old(nextId) + 1, command, params))
        case Some(outcome) => r == outcome
        case None => Endures(wire, old(Now()), Request(old(nextId) + 1, command, params), r)
      ensures old(socket) == null ==> r == Err(Raised(SessionLost)) && nextId == old(nextId) && done == []
      ensures old(socket) != null ==> nextId == old(nextId) + 1
      ensures acts == old(acts) + done && (done == [] || done == [Wrote(WroteRequest(Request(nextId, command, params)))])
      ensures r.Ok? ==>
        && old(socket) != null && done == [Wrote(WroteRequest(Request(nextId, command, params)))]
        && r.value.message.Id() == nextId
        && AwaitReply(wire, old(socket.stream), nextId) == Found(r.value, socket.stream)
      ensures r == Err(Raised(SessionLost)) ==> old(socket) == null
      ensures old(socket) != null ==>
        (done != [] <==>
          Sendable(UpFrame(wire, WroteRequest(Request(nextId, command, params))))
          && CanWrite(old(socket.writes)))
    {
      done := [];
      ghost var start, request := Now(), Request(nextId + 1, command, params);
      if socket == null {
        r := Err(Raised(SessionLost));
        OneMoreExchange(wire, exchanges, Exchange(start, request, r, []));
        exchanges := exchanges + [Exchange(start, request, r, [])];
        return;
      }
      var written := SendCommand(command, params);
      if written.Err? {
        r := Err(written.error);
      } else {
        done := [Wrote(WroteRequest(Request(nextId, command, params)))];
        AwaitedHasTheId(wire, socket.stream, nextId);
        var reply, _ := AwaitMatching(nextId);
        r := reply;
      }
      OneMoreExchange(wire, exchanges, Exchange(start, request, r, socket.stream));
      exchanges := exchanges + [Exchange(start, request, r, socket.stream)];
    }

    /** Sends the handshake and reads one frame, whose meaning is the result; on a refusal the socket stays. */
    method PerformHandshake() returns (r: Result<Down, Exception>)
      requires Valid() && socket != null && acts != [] && acts[|acts| - 1] == Opened
      modifies this`acts, world.network, socket
      ensures Valid()
      ensures acts == old(acts) || acts == old(acts) + [Wrote(WroteHello(hello))]
      ensures r.Ok? ==>
        && acts == old(acts) + [Wrote(WroteHello(hello))]
        && r.value.Welcome? && r.value.protocolVersion == hello.protocolVersion
      ensures r.Ok? || (r.error != Raised(AgentConnectionError) && acts != old(acts)) ==>
        match ParseFrame(old(socket.stream))
        case Parsed(f, rest) => socket.stream == rest && r == Greeting(wire, hello, f)
        case Malformed(_) => r == Err(Raised(ProtocolError))
        case Incomplete => false
      ensures r.Err? && acts == old(acts) ==> r.error.Raised? && r.error.class_ in {ProtocolError, CommandTimeout, AgentConnectionError}
      ensures r.Err? ==> r.error == Raised(AgentConnectionError) || !r.error.Retryable()
      ensures HandshakeEnds(wire, hello, old(socket.stream), old(socket.schedule), old(socket.writes), r)
    {
      var sent := SendJson(WroteHello(hello));
      if sent.Err? { return Err(sent.error); }
      var f := ReadFrame();
      if f.Err? { return Err(f.error); }
      return Greeting(wire, hello, f.value);
    }

    /** One attempt: a socket, if the dial is answered, and a handshake on it. */
    method Attempt() returns (r: Result<Down, Exception>, ghost done: seq<Act>)
      requires Valid()
      modifies this`socket, this`reader, this`acts, world`dials, world.network
      ensures Valid()
      ensures acts == old(acts) + done && (done == [] || done == [Opened] || done == [Opened, Wrote(WroteHello(hello))])
      ensures world.dials == Dropped(old(world.dials), 1) && AttemptEnds(wire, hello, DialAt(old(world.dials), 0), r)
      ensures r != Err(Raised(AgentConnectionError)) ==> socket != null && fresh(socket)
      ensures r.Ok? ==>
        && done == [Opened, Wrote(WroteHello(hello))]
        && r.value.Welcome? && r.value.protocolVersion == hello.protocolVersion
      ensures r.Err? ==> r.error == Raised(AgentConnectionError) || !r.error.Retryable()
    {
      var connection := world.Dial();
      done := [];
      if connection == null { return Err(Raised(AgentConnectionError)), done; }
      socket := connection;
      reader := new FrameReader(connection);
      OneMoreAct(wire, hello, acts, Opened);
      acts := acts + [Opened];
      done := [Opened];
      r := PerformHandshake();
      if acts != old(acts) + done { done := [Opened, Wrote(WroteHello(hello))]; }
    }

    /** One turn of the connecting loop: after a connection error there is no socket. */
    method ConnectTurn() returns (r: Result<Down, Exception>, ghost done: seq<Act>)
      requires Valid()
      modifies this`socket, this`reader, this`acts, world`dials, world.network
      ensures Valid()
      ensures acts == old(acts) + done && RequestsIn(done) == [] && Opens(done) <= 1
      ensures world.dials == Dropped(old(world.dials), 1) && AttemptEnds(wire, hello, DialAt(old(world.dials), 0), r)
      ensures if r == Err(Raised(AgentConnectionError)) then socket == null else socket != null && fresh(socket)
      ensures r.Ok? ==> Greeted(r.value) && done == [Opened, Wrote(WroteHello(hello))]
      ensures r.Err? ==> r.error == Raised(AgentConnectionError) || !r.error.Retryable()
    {
      var outcome, did := Attempt();
      AttemptAsksNothing(hello, did);
      if NotConnected(outcome) { Close(); }
      return outcome, did;
    }

    predicate Greeted(message: Down) {
      message.Welcome? && message.protocolVersion == hello.protocolVersion
    }

    /**
     Opens a socket and shakes hands, up to `retries + 1` times. It spends no id, and asks nothing.
     Only connection errors are tried again; any other exception passes through at once.
    */
    method Connect(retries: nat) returns (r: Result<Down, Exception>, ghost log: seq<Result<Down, Exception>>, ghost done: seq<Act>)
      requires Valid()
      modifies this`socket, this`reader, this`acts, world`dials, world.network
      ensures Valid() && acts == old(acts) + done && RequestsIn(done) == [] && Opens(done) <= |log|
      ensures ConnectLog(log, retries) && r == log[|log| - 1]
      ensures world.dials == Dropped(old(world.dials), |log|)
      ensures AllEnd(wire, hello, old(world.dials), log)
      ensures if NotConnected(r) then socket == null else socket != null && fresh(socket)
      ensures r.Ok? ==> Greeted(r.value) && |acts| > 0 && acts[|acts| - 1] == Wrote(WroteHello(hello))
      ensures r.Err? ==> NotConnected(r) || !r.error.Retryable()
    {
      log, done := [], [];
      r := Err(Raised(AgentConnectionError));
      var attempt := 0;
      while attempt < retries + 1
        invariant Valid() && acts == old(acts) + done && RequestsIn(done) == [] && Opens(done) <= attempt == |log| <= retries + 1
        invariant attempt == retries + 1 ==> ConnectLog(log, retries)
        invariant NotConnected(r) && AllFailed(wire, hello, old(world.dials), log) && (log != [] ==> socket == null && r == log[|log| - 1])
        invariant world.dials == Dropped(old(world.dials), attempt)
      {
        var outcome, more := ConnectTurn();
        ActsAppended(done, more);
        Regrouped(old(acts), done, more);
        DropOneMore(old(world.dials), attempt);
        NextDial(old(world.dials), attempt);
        OneMoreAttempt(wire, hello, old(world.dials), log, outcome, retries);
        log, done, attempt, r := log + [outcome], done + more, attempt + 1, outcome;
        if !NotConnected(outcome) { return; }
      }
    }

    /** After a connection error: the socket goes, and if there are turns left a new connection is tried for, twice. */
    method Reopen(turnsLeft: bool) returns (failure: Option<Exception>, ghost log: seq<Result<Down, Exception>>, ghost done: seq<Act>)
      requires Valid()
      modifies this`socket, this`reader, this`acts, world`dials, world.network
      ensures Valid() && (socket == null || fresh(socket))
      ensures acts == old(acts) + done && RequestsIn(done) == [] && Opens(done) <= 2
      ensures world.dials == Dropped(old(world.dials), |log|) && AllEnd(wire, hello, old(world.dials), log)
      ensures if turnsLeft then OneOrTwo(log) else log == []
      ensures socket != null <==> log != [] && !NotConnected(log[|log| - 1])
      ensures failure == if TurnedDown(log) then Some(log[|log| - 1].error) else None
      ensures failure.Some? ==> !failure.value.Retryable()
    {
      Close();
      failure, log, done := None, [], [];
      if turnsLeft {
        var connected;
        connected, log, done := Connect(1);
        OneRetry(log);
        if connected.Err? && connected.error != Raised(AgentConnectionError) { failure := Some(connected.error); }
      }
    }

    /** One exchange of the resend loop, and what comes of it: it settles the call, or it met a connection error. */
    method TryOnce(command: string, params: JsonValues.Json)
      returns (settled: bool, r: Result<Group, Exception>, ghost met: Exchange, ghost done: seq<Act>)
      requires Valid() && AllEndWell(wire, exchanges)
      modifies this`nextId, this`acts, this`exchanges, world`late, world.network, socket
      ensures Valid() && AllEndWell(wire, exchanges) && old(nextId) <= nextId <= old(nextId) + 1
      ensures acts == old(acts) + done && Opens(done) == 0
      ensures RequestsIn(done) == [] || (nextId == old(nextId) + 1 && RequestsIn(done) == [Request(nextId, command, params)])
      ensures exchanges == old(exchanges) + [met]
      ensures met.start == old(Now()) && met.request == Request(old(nextId) + 1, command, params)
      ensures met.outcome == Err(Raised(SessionLost)) <==> !met.start.connected
      ensures Verdict(Try(met, []), false) == Some(if settled then r else Err(Raised(SessionLost)))
      ensures settled <==> !Unsettled(met)
      ensures met.outcome.Ok? ==> socket != null && met.request.id == nextId && met.rest == socket.stream
      ensures settled && r.Err? ==> !r.error.Retryable()
    {
      ghost var start, request := Now(), Request(nextId + 1, command, params);
      var reply, asked := InvokeOnce(command, params);
      met := Exchange(start, request, reply, if socket == null then [] else socket.stream);
      done := asked;
      OneRequest(done);
      if reply.Ok? { return true, if Succeeded(reply.value) then reply else Err(Reported(reply.value)), met, done; }
      return !reply.error.Retryable(), reply, met, done;
    }

    /**
     One turn of the resend loop: an exchange, which settles the call unless it met a connection error;
     then the socket is closed, and a new one opened if there are turns left.
    */
    method InvokeTurn(command: string, params: JsonValues.Json, turnsLeft: bool)
      returns (settled: bool, r: Result<Group, Exception>, ghost t: Try, ghost done: seq<Act>)
      requires Valid() && AllEndWell(wire, exchanges)
      modifies this`nextId, this`socket, this`reader, this`acts, this`exchanges, world, world.network, socket
      ensures Valid() && AllEndWell(wire, exchanges) && (socket == null || socket == old(socket) || fresh(socket))
      ensures old(nextId) <= nextId <= old(nextId) + 1
      ensures acts == old(acts) + done && Opens(done) <= 2
      ensures RequestsIn(done) == [] || (nextId == old(nextId) + 1 && RequestsIn(done) == [Request(nextId, command, params)])
      ensures exchanges == old(exchanges) + [t.met]
      ensures world.dials == Dropped(old(world.dials), |t.reconnecting|) && AllEnd(wire, hello, old(world.dials), t.reconnecting)
      ensures t.met.start == old(Now()) && t.met.request == Request(old(nextId) + 1, command, params)
      ensures t.met.outcome == Err(Raised(SessionLost)) <==> !t.met.start.connected
      ensures Followed(t, turnsLeft)
      ensures Verdict(t, turnsLeft) == if settled then Some(r) else if turnsLeft then None else Some(Err(Raised(SessionLost)))
      ensures !settled && turnsLeft ==> (socket != null <==> Reconnected(t.reconnecting))
      ensures settled && r.Ok? ==> socket != null && t.met.request.id == nextId && t.met.rest == socket.stream
      ensures settled && r.Err? ==> !r.error.Retryable()
    {
      ghost var met;
      settled, r, met, done := TryOnce(command, params);
      t := Try(met, []);
      if !settled {
        var failure, log, more := Reopen(turnsLeft);
        AskedThenOpened(old(acts), done, more);
        if turnsLeft { AnotherTurn(met, log); }
        done, t := done + more, Try(met, log);
        if failure.Some? { settled, r := true, Err(failure.value); }
      }
    }

    /** One more turn of a call that has had the turns `tries`, and done `done`. */
    method NextTurn(command: string, params: JsonValues.Json, turnsLeft: bool, ghost call: Call, ghost tries: seq<Try>, ghost done: seq<Act>)
      returns (settled: bool, r: Result<Group, Exception>, ghost tries': seq<Try>, ghost done': seq<Act>)
      requires Valid() && AllEndWell(wire, exchanges) && call.command == command && call.params == params
      requires Left(call, tries, done, nextId, acts, exchanges) && Open(call, tries, Now(), nextId)
      modifies this`nextId, this`socket, this`reader, this`acts, this`exchanges, world, world.network, socket
      ensures Valid() && AllEndWell(wire, exchanges) && (socket == null || socket == old(socket) || fresh(socket))
      ensures Left(call, tries', done', nextId, acts, exchanges) && |tries'| == |tries| + 1
      ensures Ending(tries', turnsLeft) == if settled then Some(r) else if turnsLeft then None else Some(Err(Raised(SessionLost)))
      ensures !settled && turnsLeft ==> Open(call, tries', Now(), nextId)
      ensures settled && r.Ok? ==>
        socket != null && tries'[|tries'| - 1].met.request.id == nextId && tries'[|tries'| - 1].met.rest == socket.stream
      ensures settled && r.Err? ==> !r.error.Retryable()
    {
      ghost var counter, did, met := nextId, acts, exchanges;
      ghost var t, more;
      settled, r, t, more := InvokeTurn(command, params, turnsLeft);
      OneMoreTurn(call, tries, t, done, more, counter, nextId, did, met);
      tries', done' := tries + [t], done + more;
    }

    /** Turn after turn, `limit` of them at most, until one ends the call. */
    method TakeTurns(command: string, params: JsonValues.Json, limit: nat)
      returns (r: Result<Group, Exception>, ghost tries: seq<Try>, ghost done: seq<Act>)
      requires Valid() && AllEndWell(wire, exchanges) && limit > 0
      modifies this`nextId, this`socket, this`reader, this`acts, this`exchanges, world, world.network, socket
      ensures Valid() && AllEndWell(wire, exchanges) && 1 <= |tries| <= limit
      ensures Left(Call(old(Now()), old(nextId), command, params, old(acts), old(exchanges)), tries, done, nextId, acts, exchanges)
      ensures Ending(tries, |tries| < limit) == Some(r)
      ensures r.Ok? ==>
        socket != null && tries[|tries| - 1].met.request.id == nextId && tries[|tries| - 1].met.rest == socket.stream
      ensures r.Err? && r.error.Retryable() ==> r == Err(Raised(SessionLost)) && |tries| == limit
    {
      var attempt := 0;
      tries, done := [], [];
      ghost var call := Call(Now(), nextId, command, params, acts, exchanges);
      while attempt < limit
        invariant attempt == |tries| <= limit && Left(call, tries, done, nextId, acts, exchanges)
        invariant attempt < limit ==> Open(call, tries, Now(), nextId)
        invariant attempt == limit ==> Ending(tries, false) == Some(Err(Raised(SessionLost)))
        invariant Valid() && AllEndWell(wire, exchanges) && (socket == null || socket == old(socket) || fresh(socket))
      {
        var settled, reply;
        settled, reply, tries, done := NextTurn(command, params, attempt + 1 < limit, call, tries, done);
        attempt := attempt + 1;
        if settled { return reply, tries, done; }
      }
      return Err(Raised(SessionLost)), tries, done;
    }

    /**
     A command, resent on a new connection after a connection error, at most `maxRetries` times and
     not at all without `retry`. Every frame it writes is this command under a fresh, larger id, or
     the handshake that opens a connection. After a connection error, and only then, it connects again
     and sends the command again, as long as there are turns left: a reply is final, be it a success,
     which is returned, or a failure that the agent reports, which is raised.
    */
    method Invoke(command: string, params: JsonValues.Json, retry: bool)
      returns (r: Result<Group, Exception>, ghost tries: seq<Try>, ghost done: seq<Act>)
      requires Valid() && AllEndWell(wire, exchanges)
      modifies this`nextId, this`socket, this`reader, this`acts, this`exchanges, world, world.network, socket
      ensures Valid() && AllEndWell(wire, exchanges) && 1 <= |tries| <= if retry then maxRetries + 1 else 1
      ensures Left(Call(old(Now()), old(nextId), command, params, old(acts), old(exchanges)), tries, done, nextId, acts, exchanges)
      ensures Ending(tries, |tries| < if retry then maxRetries + 1 else 1) == Some(r)
      ensures r.Ok? ==> r.value.message.Answer? && r.value.message.reply.success && r.value.message.Id() == nextId
      ensures r.Ok? ==> socket != null && AwaitReply(wire, tries[|tries| - 1].met.start.stream, nextId) == Found(r.value, socket.stream)
      ensures var outcome := tries[|tries| - 1].met.outcome;
        && (outcome.Ok? && outcome.value.message.Answer? && outcome.value.message.reply.success ==> r == outcome)
        && (outcome.Ok? && outcome.value.message.Answer? && !outcome.value.message.reply.success && outcome.value.message.reply.error.Some?
            ==> r == Err(Raised(ClassFor(outcome.value.message.reply.error.value.code))))
      ensures r.Err? && r.error.Retryable() ==> r == Err(Raised(SessionLost)) && |tries| == if retry then maxRetries + 1 else 1
      ensures Favourable(wire, old(Now()), Request(old(nextId) + 1, command, params)) ==> |tries| == 1 && tries[0].met.outcome.Ok?
    {
      r, tries, done := TakeTurns(command, params, if retry then maxRetries + 1 else 1);
      ghost var call := Call(old(Now()), old(nextId), command, params, old(acts), old(exchanges));
      LastEndsWell(wire, call, tries, done, nextId, acts, exchanges);
      if Favourable(wire, call.start, Request(call.counter + 1, command, params)) {
        SmoothCall(wire, call, tries, done, nextId, acts, exchanges);
      }
      if r.Ok? { AwaitedHasTheId(wire, tries[|tries| - 1].met.start.stream, nextId); }
    }
  }
}
