/**
 What the protocol guarantees in every run: whatever the interleaving of clients, of the agent's
 two threads and of the network's deliveries and failures.
*/
module SessionTheorems {
  import opened Wrappers
  import opened Messages
  import opened Groups
  import opened Agent
  import opened Session
  import opened SessionInvariant
  import opened SessionSteps
  import opened SessionProof

  lemma {:induction false} RunKeepsInv(config: Config, run: seq<State>, n: nat)
    requires Sound(config) && IsRun(config, run) && n < |run|
    ensures Inv(config, run[n])
  {
    if n == 0 {
      InitialInv(config, run[0]);
    } else {
      RunKeepsInv(config, run, n - 1);
      assert Follows(config, run[n - 1], run[n - 1 + 1]);
      var step :| Enabled(config, run[n - 1], step) && run[n] == Apply(config, run[n - 1], step);
      StepKeepsInv(config, run[n - 1], step);
    }
  }

  // ---- Correlation ---------------------------------------------------------------------------------

  /**
   A returned reply is the one the agent computed for exactly that command: there is one execution,
   and only one, of a command of this client with this id; it was of this very request, on this
   very connection; and the reply, attachment included, is its answer.
  */
  lemma RepliesBelongToTheirCommands(config: Config, run: seq<State>, n: nat, t: Returned)
    requires Sound(config) && IsRun(config, run) && n < |run|
    requires t in run[n].returned
    ensures var s := run[n];
      exists m :: 0 <= m < |s.executed| && s.executed[m].command == Queued(t.conn, t.request)
        && Carries(t.reply, t.request.id, s.executed[m].outcome)
        && forall o :: 0 <= o < |s.executed| && o != m && OwnedBy(s, s.executed[o].command.conn, t.client) ==>
          s.executed[o].command.request.id != t.request.id
  {
    var s := run[n];
    RunKeepsInv(config, run, n);
    var r :| 0 <= r < |s.returned| && s.returned[r] == t;
    assert Vouched(t, s.executed) && OwnedBy(s, t.conn, t.client);
    var m :| 0 <= m < |s.executed| && s.executed[m].command == Queued(t.conn, t.request) && t.reply == AnswerOf(s.executed[m]);
    forall o | 0 <= o < |s.executed| && o != m && OwnedBy(s, s.executed[o].command.conn, t.client)
      ensures s.executed[o].command.request.id != t.request.id
    {
      if o < m { OneExecutionPerId(config, s, t.client, o, m); } else { OneExecutionPerId(config, s, t.client, m, o); }
    }
  }

  /** On one connection, commands are executed in the order of their ids. */
  lemma {:induction false} DoneIncreases(executed: seq<Executed>, c: nat, m: nat, o: nat)
    requires m < o < |executed| && executed[m].command.conn == c && executed[o].command.conn == c
    requires IncreasingIds(RequestsOf(Done(executed, c)))
    ensures executed[m].command.request.id < executed[o].command.request.id
    decreases |executed|
  {
    var rest, last := executed[..|executed| - 1], executed[|executed| - 1];
    var done := Done(executed, c);
    if o < |executed| - 1 {
      assert forall i :: 0 <= i < |Done(rest, c)| ==> RequestsOf(Done(rest, c))[i] == RequestsOf(done)[i];
      DoneIncreases(rest, c, m, o);
    } else {
      assert executed[m] in Done(rest, c) by { DoneHas(rest, c, m); }
      var i :| 0 <= i < |Done(rest, c)| && Done(rest, c)[i] == executed[m];
      assert RequestsOf(done)[i] == executed[m].command.request;
      assert RequestsOf(done)[|done| - 1] == last.command.request;
    }
  }

  lemma {:induction false} DoneHas(executed: seq<Executed>, c: nat, m: nat)
    requires m < |executed| && executed[m].command.conn == c
    ensures executed[m] in Done(executed, c)
    decreases |executed|
  {
    if m < |executed| - 1 { DoneHas(executed[..|executed| - 1], c, m); }
  }

  /** No two executions of commands of one client, on whatever connections, have the same id. */
  lemma OneExecutionPerId(config: Config, s: State, i: nat, m: nat, o: nat)
    requires Inv(config, s) && m < o < |s.executed|
    requires OwnedBy(s, s.executed[m].command.conn, i) && OwnedBy(s, s.executed[o].command.conn, i)
    ensures s.executed[m].command.request.id != s.executed[o].command.request.id
  {
    var c, d := s.executed[m].command.conn, s.executed[o].command.conn;
    assert ConnOk(config, s, c) && ConnOk(config, s, d);
    assert ClientOk(s, i);
    if c == d {
      DonePrefix(s.conns[c], OnConn(s.pending, c), Done(s.executed, c));
      DoneIncreases(s.executed, c, m, o);
    } else {
      ExecutedWasAsked(config, s, m);
      ExecutedWasAsked(config, s, o);
      var x :| 0 <= x < |s.conns[c].asked| && s.conns[c].asked[x] == s.executed[m].command.request;
      var y :| 0 <= y < |s.conns[d].asked| && s.conns[d].asked[y] == s.executed[o].command.request;
    }
  }

  lemma DonePrefix(k: Conn, queue: seq<Request>, done: seq<Executed>)
    requires Conserved(k, queue, done)
    ensures IncreasingIds(RequestsOf(done))
    ensures RequestsOf(done) <= k.asked
  {
    assert forall i :: 0 <= i < |done| ==> RequestsOf(done)[i] == k.asked[i];
  }

  /** Whatever is executed for an SDK client, that client wrote. */
  lemma ExecutedWasAsked(config: Config, s: State, m: nat)
    requires Inv(config, s) && m < |s.executed|
    requires s.executed[m].command.conn < |s.conns| && s.conns[s.executed[m].command.conn].owner.Some?
    ensures s.executed[m].command.request in s.conns[s.executed[m].command.conn].asked
  {
    var c := s.executed[m].command.conn;
    assert ConnOk(config, s, c);
    var done := Done(s.executed, c);
    DonePrefix(s.conns[c], OnConn(s.pending, c), done);
    DoneHas(s.executed, c, m);
    var i :| 0 <= i < |done| && done[i] == s.executed[m];
    assert s.conns[c].asked[i] == RequestsOf(done)[i];
  }

  // ---- How often a command is executed ---------------------------------------------------------------

  /** The executed commands of client `i` with an id above `low` and up to `high`. */
  function ExecutedIds(s: State, i: nat, low: int, high: int, n: nat): set<int>
    requires n <= |s.executed|
  {
    set m | 0 <= m < n && Counts(s, i, low, high, m) :: s.executed[m].command.request.id
  }

  predicate Counts(s: State, i: nat, low: int, high: int, m: nat)
    requires m < |s.executed|
  {
    var e := s.executed[m].command;
    e.conn < |s.conns| && s.conns[e.conn].owner == Some(i) && low < e.request.id <= high
  }

  function HowMany(s: State, i: nat, low: int, high: int, n: nat): nat
    requires n <= |s.executed|
  {
    if n == 0 then 0 else HowMany(s, i, low, high, n - 1) + (if Counts(s, i, low, high, n - 1) then 1 else 0)
  }

  lemma {:induction false} CountedByIds(config: Config, s: State, i: nat, low: int, high: int, n: nat)
    requires Inv(config, s) && n <= |s.executed|
    ensures HowMany(s, i, low, high, n) == |ExecutedIds(s, i, low, high, n)|
  {
    if n > 0 {
      CountedByIds(config, s, i, low, high, n - 1);
      var before, after := ExecutedIds(s, i, low, high, n - 1), ExecutedIds(s, i, low, high, n);
      if Counts(s, i, low, high, n - 1) {
        var id := s.executed[n - 1].command.request.id;
        forall m | 0 <= m < n - 1 && Counts(s, i, low, high, m) ensures s.executed[m].command.request.id != id {
          OneExecutionPerId(config, s, i, m, n - 1);
        }
        assert after == before + {id};
      } else {
        assert after == before;
      }
    }
  }

  lemma {:induction false} IntervalSize(low: int, high: int, ids: set<int>)
    requires low <= high && forall x <- ids :: low < x <= high
    ensures |ids| <= high - low
    decreases high - low
  {
    if low == high {
      assert forall x :: x !in ids;
      assert ids == {};
    } else {
      IntervalSize(low, high - 1, ids - {high});
      assert ids <= ids - {high} + {high};
    }
  }

  /**
   At most once for each id the client spent: of the commands with ids in an interval, the agent
   executes no more than the interval has ids.
  */
  lemma NoMoreExecutionsThanIds(config: Config, run: seq<State>, n: nat, i: nat, low: int, high: int)
    requires Sound(config) && IsRun(config, run) && n < |run| && low <= high
    ensures HowMany(run[n], i, low, high, |run[n].executed|) <= high - low
  {
    RunKeepsInv(config, run, n);
    CountedByIds(config, run[n], i, low, high, |run[n].executed|);
    IntervalSize(low, high, ExecutedIds(run[n], i, low, high, |run[n].executed|));
  }

  // ---- Order, and the gate ------------------------------------------------------------------------------

  /**
   Commands are executed in the global order of their arrival, each arrival once: at any moment
   those executed are an initial part of those that arrived, and the queue is the rest.
  */
  lemma ExecutionFollowsArrival(config: Config, run: seq<State>, n: nat)
    requires Sound(config) && IsRun(config, run) && n < |run|
    ensures run[n].arrived == CommandsOf(run[n].executed) + run[n].pending
  {
    RunKeepsInv(config, run, n);
  }

  lemma HistoryGrows(config: Config, s: State, step: Step)
    requires Enabled(config, s, step)
    ensures var s' := Apply(config, s, step);
      && s.arrived <= s'.arrived && s.executed <= s'.executed && s.returned <= s'.returned
      && |s.conns| <= |s'.conns|
      && forall c :: 0 <= c < |s.conns| && s.conns[c].link.accepted ==> s'.conns[c].link.accepted
  {
  }

  /**
   Nothing is executed for a connection, be it an SDK client's or any other peer's, that has not
   passed the gate before: at the moment a command is taken off the queue, its connection has
   already been accepted, on a handshake with the right version and, if the agent has a token, with a
   token like it.
  */
  lemma ExecutionNeedsHandshake(config: Config, run: seq<State>, n: nat, e: Executed)
    requires Sound(config) && IsRun(config, run) && n + 1 < |run|
    requires |run[n].executed| < |run[n + 1].executed| && e == run[n + 1].executed[|run[n].executed|]
    ensures run[n].pending != [] && e.command == run[n].pending[0]
    ensures e.command.conn < |run[n].conns|
    ensures var k := run[n].conns[e.command.conn];
      && k.link.accepted && k.credentials.Some? && k.credentials.value.protocolVersion == 1
      && (config.token.Some? ==> k.credentials.value.token.Some? && Alike(k.credentials.value.token.value, config.token.value))
  {
    var s := run[n];
    RunKeepsInv(config, run, n);
    assert Follows(config, run[n], run[n + 1]);
    var step :| Enabled(config, s, step) && run[n + 1] == Apply(config, s, step);
    OnlyExecuteExecutes(config, s, step);
    assert s.arrived[|s.executed|] == s.pending[0];
    assert ConnOk(config, s, s.pending[0].conn);
    AcceptableIsCredentials(config, s.conns[s.pending[0].conn].credentials.value);
  }

  lemma OnlyExecuteExecutes(config: Config, s: State, step: Step)
    requires Enabled(config, s, step) && Apply(config, s, step).executed != s.executed
    ensures step.Execute?
  {
  }

  // ---- What is on the wire ---------------------------------------------------------------------------------

  /**
   Everything the agent has sent on an SDK client's connection is, byte for byte, the beginning of a
   run of whole groups, and while its end of the connection is open all of it: each a JSON frame with
   exactly the binary frame it announces. The first is the handshake reply, a welcome if the client
   was accepted, and each of the others answers a command executed for this connection, with growing
   ids.
  */
  lemma OutgoingIsGrouped(config: Config, run: seq<State>, n: nat, c: nat)
    requires Sound(config) && IsRun(config, run) && n < |run|
    requires c < |run[n].conns| && run[n].conns[c].owner.Some?
    ensures var k := run[n].conns[c];
      && k.link.outbox <= GroupBytes(config.wire, k.groups)
      && (k.link.open ==> k.link.outbox == GroupBytes(config.wire, k.groups))
      && AllWellFormed(config.wire, k.groups)
      && IncreasingGroups(k.groups)
      && (k.link.accepted && k.groups != [] ==> k.groups[0].message.Welcome?)
      && forall j :: 0 < j < |k.groups| ==>
        (exists m :: 0 <= m < |run[n].executed| && run[n].executed[m].command.conn == c
          && k.groups[j] == AnswerOf(run[n].executed[m]))
  {
    var s := run[n];
    RunKeepsInv(config, run, n);
    assert ConnOk(config, s, c);
    var k, done := s.conns[c], Done(s.executed, c);
    forall j | 0 < j < |k.groups|
      ensures exists m :: 0 <= m < |s.executed| && s.executed[m].command.conn == c && k.groups[j] == AnswerOf(s.executed[m])
    {
      assert IsAnswer(k.groups[j], done);
      var i :| 0 <= i < |done| && k.groups[j] == AnswerOf(done[i]);
      DoneIsExecuted(s.executed, c);
      assert done[i] in s.executed;
      var m :| 0 <= m < |s.executed| && s.executed[m] == done[i];
    }
  }

  /** None of the SDK's framing errors can occur: a client that reads either waits or gets the next group. */
  lemma FramingErrorsNeverFire(config: Config, run: seq<State>, n: nat, i: nat)
    requires Sound(config) && IsRun(config, run) && n < |run|
    requires i < |run[n].clients| && !run[n].clients[i].phase.Offline?
    ensures Reading(run[n], i)
    ensures !ReadGroup(config.wire, Unread(run[n].conns[run[n].clients[i].at])).Rejected?
  {
    var s := run[n];
    RunKeepsInv(config, run, n);
    assert ClientOk(s, i) && ConnOk(config, s, s.clients[i].at);
    ReadingNext(config.wire, s.conns[s.clients[i].at]);
  }

  /** The thread that parses never writes between a reply and its attachment: past the gate it is silent. */
  lemma ParsingIsSilentPastTheGate(config: Config, run: seq<State>, n: nat, c: nat, sessionId: string)
    requires Sound(config) && IsRun(config, run) && n < |run|
    requires c < |run[n].conns| && run[n].conns[c].owner.Some? && run[n].conns[c].link.accepted
    requires IsUuid(sessionId)
    ensures Apply(config, run[n], Handle(c, sessionId)).conns[c].link.outbox == run[n].conns[c].link.outbox
  {
    RunKeepsInv(config, run, n);
    SilentOn(config, run[n], c, sessionId);
  }

  lemma SilentOn(config: Config, s: State, c: nat, sessionId: string)
    requires Sound(config) && c < |s.conns| && ConnOk(config, s, c)
    requires s.conns[c].owner.Some? && s.conns[c].link.accepted
    ensures Handled(config, s.conns[c], sessionId).0.link.outbox == s.conns[c].link.outbox
    ensures ApplyHandle(config, s, c, sessionId).conns[c].link.outbox == s.conns[c].link.outbox
  {
    HandlingRequest(config, s.conns[c], OnConn(s.pending, c), Done(s.executed, c), sessionId);
    HandledOnItsConn(config, s, c, sessionId);
  }

  lemma HandledOnItsConn(config: Config, s: State, c: nat, sessionId: string)
    requires c < |s.conns|
    ensures c < |ApplyHandle(config, s, c, sessionId).conns|
    ensures ApplyHandle(config, s, c, sessionId).conns[c] == Handled(config, s.conns[c], sessionId).0
  {
  }

  // ---- The discard loop ----------------------------------------------------------------------------------------

  /**
   A reply that the loop discards has a smaller id than the one awaited. And when it returns, the
   connection is quiet: no request of this client is queued or on its way to the agent, and no
   reply is on its way back.
  */
  lemma DiscardLoopIsExact(config: Config, run: seq<State>, n: nat, i: nat)
    requires Sound(config) && IsRun(config, run) && n < |run|
    requires Enabled(config, run[n], ReadReply(i))
    ensures
      var s := run[n];
      var s' := Apply(config, s, ReadReply(i));
      var (at, request) := (s.clients[i].at, s.clients[i].phase.request);
      var r := ReadGroup(config.wire, Unread(s.conns[at]));
      && r.Got? && at < |s'.conns|
      && (r.group.message.Id() != request.id ==>
        r.group.message.Id() < request.id && s'.clients[i].phase == Awaiting(request))
      && (r.group.message.Id() == request.id ==>
        && s'.returned == s.returned + [Returned(i, at, request, r.group)]
        && OnConn(s'.pending, at) == [] && Unparsed(s'.conns[at].unhandled) == []
        && s'.conns[at].consumed == |s'.conns[at].link.outbox|)
  {
    var s := run[n];
    RunKeepsInv(config, run, n);
    var at, request := s.clients[i].at, s.clients[i].phase.request;
    var k := s.conns[at];
    assert ClientOk(s, i) && ConnOk(config, s, at);
    ReadingNext(config.wire, k);
    if k.groups[k.read].message.Id() == request.id {
      MatchingReply(config.wire, k, OnConn(s.pending, at), Done(s.executed, at), request);
      var k' := Consume(config.wire, k, k.groups[k.read]);
      assert k'.groups[..k'.read] == k'.groups;
    } else {
      StaleReply(config.wire, k, OnConn(s.pending, at), Done(s.executed, at), request);
    }
  }

  /**
   Conservation on every SDK connection: the requests written on it are those executed, then those
   queued, then those not yet parsed, in the order of their growing ids.
  */
  lemma RequestsAreConserved(config: Config, run: seq<State>, n: nat, c: nat)
    requires Sound(config) && IsRun(config, run) && n < |run|
    requires c < |run[n].conns| && run[n].conns[c].owner.Some?
    ensures var s := run[n];
      && s.conns[c].asked == RequestsOf(Done(s.executed, c)) + OnConn(s.pending, c) + Unparsed(s.conns[c].unhandled)
      && IncreasingIds(s.conns[c].asked)
  {
    RunKeepsInv(config, run, n);
    assert ConnOk(config, run[n], c);
  }
}
