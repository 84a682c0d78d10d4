/** What holds in every reachable state of the protocol, and that every step keeps it. */
module SessionInvariant {
  import opened Wrappers
  import opened Framing
  import opened Messages
  import opened Groups
  import opened Agent
  import opened Session

  // ---- Projections onto one connection ----------------------------------------------------------

  function OnConn(queue: seq<Queued>, c: nat): seq<Request> {
    if queue == [] then []
    else (if queue[0].conn == c then [queue[0].request] else []) + OnConn(queue[1..], c)
  }

  function Done(executed: seq<Executed>, c: nat): seq<Executed> {
    if executed == [] then []
    else
      var last := executed[|executed| - 1];
      Done(executed[..|executed| - 1], c) + (if last.command.conn == c then [last] else [])
  }

  function RequestsOf(done: seq<Executed>): seq<Request> {
    seq(|done|, i requires 0 <= i < |done| => done[i].command.request)
  }

  function CommandsOf(executed: seq<Executed>): seq<Queued> {
    seq(|executed|, i requires 0 <= i < |executed| => executed[i].command)
  }

  /** The requests among what a client wrote; the handshake is always alone. */
  function Unparsed(unhandled: seq<Written>): seq<Request> {
    if unhandled == [] then []
    else (if unhandled[0].WroteRequest? then [unhandled[0].request] else []) + Unparsed(unhandled[1..])
  }

  lemma {:induction false} OnConnAppend(a: seq<Queued>, b: seq<Queued>, c: nat)
    ensures OnConn(a + b, c) == OnConn(a, c) + OnConn(b, c)
    decreases |a|
  {
    if a == [] {
      assert a + b == b;
    } else {
      assert (a + b)[0] == a[0] && (a + b)[1..] == a[1..] + b;
      OnConnAppend(a[1..], b, c);
      var head := if a[0].conn == c then [a[0].request] else [];
      assert head + (OnConn(a[1..], c) + OnConn(b, c)) == head + OnConn(a[1..], c) + OnConn(b, c);
    }
  }

  lemma {:induction false} UnparsedAppend(a: seq<Written>, b: seq<Written>)
    ensures Unparsed(a + b) == Unparsed(a) + Unparsed(b)
    decreases |a|
  {
    if a == [] {
      assert a + b == b;
    } else {
      assert (a + b)[0] == a[0] && (a + b)[1..] == a[1..] + b;
      UnparsedAppend(a[1..], b);
      var head := if a[0].WroteRequest? then [a[0].request] else [];
      assert head + (Unparsed(a[1..]) + Unparsed(b)) == head + Unparsed(a[1..]) + Unparsed(b);
    }
  }

  lemma DoneSnoc(executed: seq<Executed>, e: Executed, c: nat)
    ensures Done(executed + [e], c) == Done(executed, c) + (if e.command.conn == c then [e] else [])
  {
    assert (executed + [e])[..|executed|] == executed;
  }

  lemma {:induction false} DoneIsExecuted(executed: seq<Executed>, c: nat)
    ensures forall e <- Done(executed, c) :: e in executed && e.command.conn == c
    decreases |executed|
  {
    if executed != [] {
      DoneIsExecuted(executed[..|executed| - 1], c);
    }
  }

  lemma {:induction false} OnConnEmpty(queue: seq<Queued>, c: nat)
    requires forall q <- queue :: q.conn != c
    ensures OnConn(queue, c) == []
    decreases |queue|
  {
    if queue != [] { OnConnEmpty(queue[1..], c); }
  }

  lemma {:induction false} DoneEmpty(executed: seq<Executed>, c: nat)
    requires forall e <- executed :: e.command.conn != c
    ensures Done(executed, c) == []
    decreases |executed|
  {
    if executed != [] { DoneEmpty(executed[..|executed| - 1], c); }
  }

  // ---- One connection of an SDK client ------------------------------------------------------------

  ghost predicate IncreasingIds(rs: seq<Request>) {
    forall i, j :: 0 <= i < j < |rs| ==> rs[i].id < rs[j].id
  }

  ghost predicate IncreasingGroups(gs: seq<Group>) {
    forall i, j :: 0 <= i < j < |gs| ==> gs[i].message.Id() < gs[j].message.Id()
  }

  ghost predicate IdsWithin(rs: seq<Request>, low: int, high: int) {
    forall i :: 0 <= i < |rs| ==> low < rs[i].id <= high
  }

  /** Upwards: the bytes between client and agent are the frames not yet handled. */
  ghost predicate UpInv(wire: Wire, k: Conn) {
    && k.link.buffer + k.up == EncodeAll(UpFrames(wire, k.unhandled))
    && forall i :: 0 <= i < |k.unhandled| ==> Sendable(UpFrame(wire, k.unhandled[i]))
  }

  /**
   Downwards: while open, the bytes sent are whole well-formed groups; what the client has read
   ends where a group ends. A cancelled connection may have lost the end of them.
  */
  ghost predicate DownInv(wire: Wire, k: Conn) {
    && AllWellFormed(wire, k.groups)
    && k.link.outbox <= GroupBytes(wire, k.groups)
    && (k.link.open ==> k.link.outbox == GroupBytes(wire, k.groups))
    && k.read <= |k.groups|
    && k.consumed == |GroupBytes(wire, k.groups[..k.read])|
    && k.consumed <= |k.link.outbox|
  }

  /**
   Conservation: the requests written on the connection are, in order, those executed, those
   queued and those not yet parsed. None is lost, repeated or overtaken.
  */
  ghost predicate Conserved(k: Conn, queue: seq<Request>, done: seq<Executed>) {
    && k.asked == RequestsOf(done) + queue + Unparsed(k.unhandled)
    && IncreasingIds(k.asked)
    && (forall i :: 0 <= i < |k.asked| ==> k.asked[i].id > 0 && FitsInt64(k.asked[i].id))
  }

  ghost predicate NoHello(unhandled: seq<Written>) {
    forall i :: 0 <= i < |unhandled| ==> unhandled[i].WroteRequest?
  }

  /** The handshake is alone on the wire until handled, and if it is refused nothing more is received. */
  ghost predicate GateInv(k: Conn) {
    && (NoHello(k.unhandled) || (|k.unhandled| == 1 && k.asked == [] && k.groups == [] && !k.link.accepted))
    && (NoHello(k.unhandled) && !k.link.accepted ==> !k.link.open && k.link.buffer == [])
    && (k.link.accepted && k.link.open ==> k.groups != [])
    && (k.link.accepted && k.groups != [] ==> k.groups[0].message.Welcome?)
  }

  /** First the handshake reply; then answers, each to a command executed here, with growing ids. */
  ghost predicate AnswersInv(k: Conn, done: seq<Executed>) {
    && IncreasingGroups(k.groups)
    && (forall j :: 0 < j < |k.groups| ==> k.groups[j].message.Id() > 0)
    && (forall j :: 0 <= j < |k.groups| && k.groups[j].message.Id() > 0 ==> IsAnswer(k.groups[j], done))
  }

  ghost predicate IsAnswer(g: Group, done: seq<Executed>) {
    exists n :: 0 <= n < |done| && g == AnswerOf(done[n])
  }

  function AnswerOf(e: Executed): Group {
    AnswerTo(e.command.request.id, e.outcome)
  }

  ghost predicate ConnInv(wire: Wire, k: Conn, queue: seq<Request>, done: seq<Executed>) {
    && UpInv(wire, k)
    && DownInv(wire, k)
    && Conserved(k, queue, done)
    && GateInv(k)
    && AnswersInv(k, done)
  }

  // ---- Clients, and the whole state -----------------------------------------------------------------

  ghost predicate OwnedBy(s: State, c: nat, i: nat) {
    c < |s.conns| && s.conns[c].owner == Some(i)
  }

  /** Ids never repeat: each connection of a client uses ids above those of its earlier connections. */
  ghost predicate CounterInv(s: State, i: nat)
    requires i < |s.clients|
  {
    && (forall c :: 0 <= c && OwnedBy(s, c, i) ==> IdsWithin(s.conns[c].asked, s.conns[c].base, s.clients[i].nextId))
    && (forall c, d :: 0 <= c < d && OwnedBy(s, c, i) && OwnedBy(s, d, i) ==>
      IdsWithin(s.conns[c].asked, s.conns[c].base, s.conns[d].base))
    && (forall c :: 0 <= c && OwnedBy(s, c, i) ==> s.conns[c].base <= s.clients[i].nextId)
  }

  ghost predicate PhaseInv(s: State, i: nat)
    requires i < |s.clients|
  {
    var c := s.clients[i];
    c.phase.Offline? ||
    (&& OwnedBy(s, c.at, i)
     && (forall d :: c.at < d ==> !OwnedBy(s, d, i))
     && var k := s.conns[c.at];
        && (!c.phase.Greeting? ==> NoHello(k.unhandled))
        && (c.phase.Awaiting? ==>
          k.asked != [] && k.asked[|k.asked| - 1] == c.phase.request && c.phase.request.id == c.nextId))
  }

  ghost predicate GateHistory(config: Config, k: Conn) {
    k.link.accepted ==> k.credentials.Some? && Acceptable(config, k.credentials.value)
  }

  ghost predicate ConnOk(config: Config, s: State, c: nat)
    requires c < |s.conns|
  {
    && GateHistory(config, s.conns[c])
    && s.conns[c].consumed <= |s.conns[c].link.outbox|
    && (s.conns[c].owner.Some? ==>
      && s.conns[c].owner.value < |s.clients|
      && ConnInv(config.wire, s.conns[c], OnConn(s.pending, c), Done(s.executed, c)))
  }

  ghost predicate ClientOk(s: State, i: nat)
    requires i < |s.clients|
  {
    CounterInv(s, i) && PhaseInv(s, i)
  }

  ghost predicate QueueInv(s: State) {
    && s.arrived == CommandsOf(s.executed) + s.pending
    && (forall n :: 0 <= n < |s.arrived| ==>
      s.arrived[n].conn < |s.conns| && s.conns[s.arrived[n].conn].link.accepted)
  }

  ghost predicate Vouched(t: Returned, executed: seq<Executed>) {
    exists n :: 0 <= n < |executed| && executed[n].command == Queued(t.conn, t.request) && t.reply == AnswerOf(executed[n])
  }

  ghost predicate ReturnedInv(s: State) {
    forall n :: 0 <= n < |s.returned| ==>
      && Vouched(s.returned[n], s.executed)
      && OwnedBy(s, s.returned[n].conn, s.returned[n].client)
  }

  ghost predicate Inv(config: Config, s: State) {
    && (forall c :: 0 <= c < |s.conns| ==> ConnOk(config, s, c))
    && (forall i :: 0 <= i < |s.clients| ==> ClientOk(s, i))
    && QueueInv(s)
    && ReturnedInv(s)
  }

  /** The standing assumptions: faithful JSON, and an agent whose own fixed messages fit a frame. */
  ghost predicate Sound(config: Config) {
    config.wire.Faithful() && Serviceable(config)
  }

  lemma InitialInv(config: Config, s: State)
    requires Initial(s)
    ensures Inv(config, s)
  {
  }
}
