/**
 Calls of `invoke` in a run of the system. A call spends one id for each of its exchanges, which are
 no more than `max_retries + 1`; so the agent executes it at most that often, at any later time.
*/
module SessionCalls {
  import opened Wrappers
  import opened Messages
  import opened Agent
  import opened Session
  import opened SessionInvariant
  import opened SessionTheorems
  import JsonValues

  /** A run with the steps that make it. */
  ghost predicate IsLabelled(config: Config, run: seq<State>, steps: seq<Step>) {
    && |run| == |steps| + 1 && Initial(run[0])
    && forall k :: 0 <= k < |steps| ==> Enabled(config, run[k], steps[k]) && run[k + 1] == Apply(config, run[k], steps[k])
  }

  lemma LabelledStep(config: Config, run: seq<State>, steps: seq<Step>, k: nat)
    requires IsLabelled(config, run, steps) && k < |steps|
    ensures Enabled(config, run[k], steps[k]) && run[k + 1] == Apply(config, run[k], steps[k])
  {
  }

  lemma LabelledIsRun(config: Config, run: seq<State>, steps: seq<Step>)
    requires IsLabelled(config, run, steps)
    ensures IsRun(config, run)
  {
    forall n | 0 <= n < |run| - 1 ensures Follows(config, run[n], run[n + 1]) {
      assert Enabled(config, run[n], steps[n]) && run[n + 1] == Apply(config, run[n], steps[n]);
    }
  }

  predicate IsExchange(step: Step, i: nat) {
    step.Invoke? && step.client == i
  }

  /** Between `m` and `n`, the client exchanges nothing but this command. */
  predicate OnlyExchanges(steps: seq<Step>, m: nat, n: nat, i: nat, command: string, params: JsonValues.Json)
    requires m <= n <= |steps|
  {
    forall k :: m <= k < n && IsExchange(steps[k], i) ==> steps[k].command == command && steps[k].params == params
  }

  function Exchanges(steps: seq<Step>, m: nat, n: nat, i: nat): nat
    requires m <= n <= |steps|
  {
    if n == m then 0 else Exchanges(steps, m, n - 1, i) + if IsExchange(steps[n - 1], i) then 1 else 0
  }

  // ---- The counter ---------------------------------------------------------------------------------

  lemma CounterMoves(config: Config, s: State, step: Step, i: nat)
    requires Enabled(config, s, step) && i < |s.clients|
    ensures var t := Apply(config, s, step);
      && |t.clients| == |s.clients|
      && t.clients[i].nextId == s.clients[i].nextId + if IsExchange(step, i) then 1 else 0
  {
  }

  lemma LabelledCounter(config: Config, run: seq<State>, steps: seq<Step>, k: nat, i: nat)
    requires IsLabelled(config, run, steps) && k < |steps| && i < |run[k].clients|
    ensures |run[k + 1].clients| == |run[k].clients|
    ensures run[k + 1].clients[i].nextId == run[k].clients[i].nextId + if IsExchange(steps[k], i) then 1 else 0
  {
    LabelledStep(config, run, steps, k);
    CounterMoves(config, run[k], steps[k], i);
  }

  lemma ExchangesSnoc(steps: seq<Step>, m: nat, n: nat, i: nat)
    requires m < n <= |steps|
    ensures Exchanges(steps, m, n, i) == Exchanges(steps, m, n - 1, i) + if IsExchange(steps[n - 1], i) then 1 else 0
  {
  }

  lemma {:induction false} CounterCounts(config: Config, run: seq<State>, steps: seq<Step>, m: nat, n: nat, i: nat)
    requires IsLabelled(config, run, steps) && m <= n <= |steps| && i < |run[m].clients|
    ensures |run[n].clients| == |run[m].clients|
    ensures run[n].clients[i].nextId == run[m].clients[i].nextId + Exchanges(steps, m, n, i)
    decreases n
  {
    if n == m {
      assert Exchanges(steps, m, n, i) == 0;
    } else {
      CounterCounts(config, run, steps, m, n - 1, i);
      LabelledCounter(config, run, steps, n - 1, i);
      ExchangesSnoc(steps, m, n, i);
    }
  }

  // ---- What was asked -----------------------------------------------------------------------------------

  /** Only an exchange adds to what was asked, on its client's connection. */
  lemma AskedMoves(config: Config, s: State, step: Step, c: nat)
    requires Enabled(config, s, step)
    requires c < |Apply(config, s, step).conns|
    ensures var t := Apply(config, s, step);
      if c >= |s.conns| then t.conns[c].asked == []
      else
        && t.conns[c].owner == s.conns[c].owner
        && (t.conns[c].asked == s.conns[c].asked
            || (step.Invoke? && s.clients[step.client].at == c
                && t.conns[c].asked == s.conns[c].asked + [Request(s.clients[step.client].nextId + 1, step.command, step.params)]))
  {
  }

  /** Every request of client `i` with an id above `low` and up to `high` is this command. */
  ghost predicate AskedIs(s: State, i: nat, low: int, high: int, command: string, params: JsonValues.Json) {
    forall c, x :: 0 <= c < |s.conns| && s.conns[c].owner == Some(i) && 0 <= x < |s.conns[c].asked| ==>
      low < s.conns[c].asked[x].id <= high ==>
        s.conns[c].asked[x].command == command && s.conns[c].asked[x].params == params
  }

  lemma AskedStays(config: Config, s: State, step: Step, i: nat, low: int, high: int, command: string, params: JsonValues.Json)
    requires Sound(config) && Inv(config, s) && Enabled(config, s, step) && i < |s.clients|
    requires AskedIs(s, i, low, high, command, params)
    requires IsExchange(step, i) ==> s.clients[i].nextId >= high || (step.command == command && step.params == params)
    ensures AskedIs(Apply(config, s, step), i, low, high, command, params)
  {
    var t := Apply(config, s, step);
    forall c, x | 0 <= c < |t.conns| && t.conns[c].owner == Some(i) && 0 <= x < |t.conns[c].asked|
      && low < t.conns[c].asked[x].id <= high
      ensures t.conns[c].asked[x].command == command && t.conns[c].asked[x].params == params
    {
      AskedMoves(config, s, step, c);
      if t.conns[c].asked != s.conns[c].asked && x == |s.conns[c].asked| {
        assert ClientOk(s, step.client) && OwnedBy(s, c, step.client);
      }
    }
  }

  /** What the call asked, at every moment from its start on. */
  lemma {:induction false} CallAsks(config: Config, run: seq<State>, steps: seq<Step>, m: nat, n: nat, p: nat, i: nat,
                                    command: string, params: JsonValues.Json)
    requires Sound(config) && IsLabelled(config, run, steps)
    requires m <= n <= |steps| && m <= p <= |steps| && i < |run[m].clients|
    requires OnlyExchanges(steps, m, n, i, command, params)
    ensures i < |run[n].clients|
    ensures AskedIs(run[p], i, run[m].clients[i].nextId, run[n].clients[i].nextId, command, params)
    decreases p
  {
    CounterCounts(config, run, steps, m, n, i);
    LabelledIsRun(config, run, steps);
    if p == m {
      RunKeepsInv(config, run, m);
      assert ClientOk(run[m], i);
      forall c, x | 0 <= c < |run[m].conns| && run[m].conns[c].owner == Some(i) && 0 <= x < |run[m].conns[c].asked|
        ensures run[m].conns[c].asked[x].id <= run[m].clients[i].nextId
      {
        assert OwnedBy(run[m], c, i);
      }
    } else {
      CallAsks(config, run, steps, m, n, p - 1, i, command, params);
      RunKeepsInv(config, run, p - 1);
      CounterCounts(config, run, steps, m, p - 1, i);
      if p - 1 >= n { CounterCounts(config, run, steps, n, p - 1, i); }
      LabelledStep(config, run, steps, p - 1);
      AskedStays(config, run[p - 1], steps[p - 1], i, run[m].clients[i].nextId, run[n].clients[i].nextId, command, params);
    }
  }

  /**
   One call of `invoke`, from `m` to `n`, whose exchanges are no more than `maxRetries + 1`. At any
   time `p` from its start on, the agent has executed commands with its ids at most that often, and
   each of them is this command.
  */
  lemma OneCallIsExecutedAtMost(config: Config, run: seq<State>, steps: seq<Step>, m: nat, n: nat, p: nat, i: nat,
                                command: string, params: JsonValues.Json, maxRetries: nat)
    requires Sound(config) && IsLabelled(config, run, steps)
    requires m <= n <= |steps| && m <= p <= |steps| && i < |run[m].clients|
    requires OnlyExchanges(steps, m, n, i, command, params) && Exchanges(steps, m, n, i) <= maxRetries + 1
    ensures i < |run[n].clients|
    ensures var (s, low, high) := (run[p], run[m].clients[i].nextId, run[n].clients[i].nextId);
      && HowMany(s, i, low, high, |s.executed|) <= maxRetries + 1
      && forall x :: 0 <= x < |s.executed| && Counts(s, i, low, high, x) ==>
        s.executed[x].command.request.command == command && s.executed[x].command.request.params == params
  {
    LabelledIsRun(config, run, steps);
    CounterCounts(config, run, steps, m, n, i);
    var s, low, high := run[p], run[m].clients[i].nextId, run[n].clients[i].nextId;
    NoMoreExecutionsThanIds(config, run, p, i, low, high);
    CallAsks(config, run, steps, m, n, p, i, command, params);
    RunKeepsInv(config, run, p);
    forall x | 0 <= x < |s.executed| && Counts(s, i, low, high, x)
      ensures s.executed[x].command.request.command == command && s.executed[x].command.request.params == params
    {
      ExecutedWasAsked(config, s, x);
      var c := s.executed[x].command.conn;
      var y :| 0 <= y < |s.conns[c].asked| && s.conns[c].asked[y] == s.executed[x].command.request;
    }
  }
}
