/**
 Interruption recovery: an interaction is run in an environment that may raise dialogs at any time,
 and the agent clears them according to its alert policy.
*/
module Recovery {
  import opened Wrappers
  import opened JsonValues

  datatype Mode = Manual | Dismiss | Accept

  datatype AlertPolicy = AlertPolicy(mode: Mode, buttons: seq<string>)

  /** How a run of the interaction ends; errors other than the agent's own are `Crashed`. */
  datatype Outcome = Completed | NotFound | NotInteractable | Refused(code: string) | Crashed

  datatype Event =
    | Looked                  // for a dialog
    | Tapped(button: string)
    | Ran(outcome: Outcome)
    | Waited
    | Checked(met: bool)      // the condition waited for

  /** The environment answers by what has happened so far. */
  datatype Environment = Environment(
    dialog: seq<Event> -> Option<seq<string>>, // the labels of the buttons of the dialog on screen
    tappable: (seq<Event>, string) -> bool,    // the button is still there
    run: seq<Event> -> Outcome,
    satisfied: seq<Event> -> bool,             // the condition waited for holds
    expired: seq<Event> -> bool)               // the deadline of the wait has passed

  // ---- Which button ------------------------------------------------------------------------------------

  function FirstPresent(buttons: seq<string>, labels: seq<string>): Option<string> {
    if buttons == [] then None
    else if buttons[0] in labels then Some(buttons[0])
    else FirstPresent(buttons[1..], labels)
  }

  function Chosen(policy: AlertPolicy, labels: seq<string>): string
    requires labels != []
  {
    var preferred := FirstPresent(policy.buttons, labels);
    if preferred.Some? then preferred.value
    else if policy.mode == Accept then labels[|labels| - 1] else labels[0]
  }

  predicate IsFirstPresent(buttons: seq<string>, labels: seq<string>, i: int) {
    0 <= i < |buttons| && buttons[i] in labels && forall j :: 0 <= j < i ==> buttons[j] !in labels
  }

  lemma {:induction false} FirstPresentIsFirst(buttons: seq<string>, labels: seq<string>, i: nat)
    requires IsFirstPresent(buttons, labels, i)
    ensures FirstPresent(buttons, labels) == Some(buttons[i])
    decreases i
  {
    if i > 0 { FirstPresentIsFirst(buttons[1..], labels, i - 1); }
  }

  lemma {:induction false} NonePresent(buttons: seq<string>, labels: seq<string>)
    requires forall b <- buttons :: b !in labels
    ensures FirstPresent(buttons, labels) == None
    decreases |buttons|
  {
    if buttons != [] { NonePresent(buttons[1..], labels); }
  }

  /** The button tapped is always one of the dialog's: the first preferred one there is, else the last or the first by mode. */
  lemma ChosenButton(policy: AlertPolicy, labels: seq<string>)
    requires labels != []
    ensures Chosen(policy, labels) in labels
    ensures forall i :: IsFirstPresent(policy.buttons, labels, i) ==> Chosen(policy, labels) == policy.buttons[i]
    ensures (forall b <- policy.buttons :: b !in labels) ==>
      Chosen(policy, labels) == if policy.mode == Accept then labels[|labels| - 1] else labels[0]
  {
    FirstPresentIsPresent(policy.buttons, labels);
    forall i | IsFirstPresent(policy.buttons, labels, i)
      ensures Chosen(policy, labels) == policy.buttons[i]
    {
      FirstPresentIsFirst(policy.buttons, labels, i);
    }
    if forall b <- policy.buttons :: b !in labels { NonePresent(policy.buttons, labels); }
  }

  lemma {:induction false} FirstPresentIsPresent(buttons: seq<string>, labels: seq<string>)
    ensures FirstPresent(buttons, labels).Some? ==> FirstPresent(buttons, labels).value in labels
    decreases |buttons|
  {
    if buttons != [] { FirstPresentIsPresent(buttons[1..], labels); }
  }

  // ---- Clearing a dialog ----------------------------------------------------------------------------------

  /** The label of the button that is tapped, if one is. */
  function Cleared(env: Environment, policy: AlertPolicy, history: seq<Event>): Option<string> {
    if policy.mode == Manual then None
    else
      match env.dialog(history)
      case None => None
      case Some(labels) =>
        if labels == [] || !env.tappable(history + [Looked], Chosen(policy, labels)) then None
        else Some(Chosen(policy, labels))
  }

  function Clearing(env: Environment, policy: AlertPolicy, history: seq<Event>): seq<Event> {
    if policy.mode == Manual then []
    else if Cleared(env, policy, history).Some? then [Looked, Tapped(Cleared(env, policy, history).value)]
    else [Looked]
  }

  /** There is a dialog, dialogs are not to be left alone, and the button the policy chooses can be tapped. */
  predicate InTheWay(env: Environment, policy: AlertPolicy, history: seq<Event>) {
    && policy.mode != Manual && env.dialog(history).Some? && env.dialog(history).value != []
    && env.tappable(history + [Looked], Chosen(policy, env.dialog(history).value))
  }

  /** A dialog in the way is cleared, always, and nothing else is; dialogs that are left alone are not even looked for. */
  lemma DialogsAreCleared(env: Environment, policy: AlertPolicy, history: seq<Event>)
    ensures Cleared(env, policy, history) ==
      if InTheWay(env, policy, history) then Some(Chosen(policy, env.dialog(history).value)) else None
    ensures Clearing(env, policy, history) ==
      if policy.mode == Manual then []
      else if InTheWay(env, policy, history) then [Looked, Tapped(Chosen(policy, env.dialog(history).value))] else [Looked]
  {
  }

  // ---- Recovery, event by event ------------------------------------------------------------------------------

  predicate Retried(o: Outcome) {
    o.NotFound? || o.NotInteractable?
  }

  datatype Episode = Episode(events: seq<Event>, result: Outcome)

  /** A run that completed is looked at again once the screen has settled, unless dialogs are left alone. */
  predicate Settles(policy: AlertPolicy, first: Outcome) {
    first.Completed? && policy.mode != Manual
  }

  function Wait(policy: AlertPolicy, first: Outcome): seq<Event> {
    if Settles(policy, first) then [Waited] else []
  }

  /** What happens after the first run of the interaction. */
  function AfterRun(env: Environment, policy: AlertPolicy, history: seq<Event>, first: Outcome): Episode {
    var h := if Settles(policy, first) then history + [Waited] else history;
    if !Settles(policy, first) && !Retried(first) then Episode([], first)
    else if Cleared(env, policy, h).None? then Episode(Wait(policy, first) + Clearing(env, policy, h), first)
    else
      var again := env.run(h + Clearing(env, policy, h));
      Episode(Wait(policy, first) + Clearing(env, policy, h) + [Ran(again)],
              if first.Completed? && again.NotFound? then Completed else again)
  }

  function Recovered(env: Environment, policy: AlertPolicy, history: seq<Event>): Episode {
    var before := Clearing(env, policy, history);
    var first := env.run(history + before);
    var rest := AfterRun(env, policy, history + before + [Ran(first)], first);
    Episode(before + [Ran(first)] + rest.events, rest.result)
  }

  function Runs(events: seq<Event>): seq<Outcome> {
    if events == [] then []
    else (if events[0].Ran? then [events[0].outcome] else []) + Runs(events[1..])
  }

  function Taps(events: seq<Event>): seq<string> {
    if events == [] then []
    else (if events[0].Tapped? then [events[0].button] else []) + Taps(events[1..])
  }

  lemma {:induction false} RunsAppended(a: seq<Event>, b: seq<Event>)
    ensures Runs(a + b) == Runs(a) + Runs(b)
    decreases |a|
  {
    if a == [] {
      assert a + b == b;
    } else {
      assert (a + b)[0] == a[0] && (a + b)[1..] == a[1..] + b;
      RunsAppended(a[1..], b);
      var head, rest, more := if a[0].Ran? then [a[0].outcome] else [], Runs(a[1..]), Runs(b);
      assert head + (rest + more) == head + rest + more;
    }
  }

  lemma {:induction false} TapsAppended(a: seq<Event>, b: seq<Event>)
    ensures Taps(a + b) == Taps(a) + Taps(b)
    decreases |a|
  {
    if a == [] {
      assert a + b == b;
    } else {
      assert (a + b)[0] == a[0] && (a + b)[1..] == a[1..] + b;
      TapsAppended(a[1..], b);
      var head, rest, more := if a[0].Tapped? then [a[0].button] else [], Taps(a[1..]), Taps(b);
      assert head + (rest + more) == head + rest + more;
    }
  }

  lemma Appended(a: seq<Event>, b: seq<Event>)
    ensures Runs(a + b) == Runs(a) + Runs(b) && Taps(a + b) == Taps(a) + Taps(b)
  {
    RunsAppended(a, b);
    TapsAppended(a, b);
  }

  /** The tap at `k` is on a dialog that was there, and on the button the policy chooses. */
  predicate TappedByPolicy(env: Environment, policy: AlertPolicy, history: seq<Event>, events: seq<Event>, k: nat)
    requires k < |events| && events[k].Tapped?
  {
    && k > 0 && events[k - 1] == Looked && policy.mode != Manual
    && env.dialog(history + events[..k - 1]).Some?
    && env.dialog(history + events[..k - 1]).value != []
    && events[k].button == Chosen(policy, env.dialog(history + events[..k - 1]).value)
  }

  ghost predicate TapsByPolicy(env: Environment, policy: AlertPolicy, history: seq<Event>, events: seq<Event>) {
    forall k :: 0 <= k < |events| && events[k].Tapped? ==> TappedByPolicy(env, policy, history, events, k)
  }

  lemma LookAndTap(button: string)
    ensures Runs([Looked, Tapped(button)]) == [] && Taps([Looked, Tapped(button)]) == [button]
  {
    assert [Looked, Tapped(button)] == [Looked] + [Tapped(button)];
    Appended([Looked], [Tapped(button)]);
  }

  lemma ClearingTaps(env: Environment, policy: AlertPolicy, history: seq<Event>)
    ensures var events := Clearing(env, policy, history);
      && TapsByPolicy(env, policy, history, events) && Runs(events) == []
      && Taps(events) == (if Cleared(env, policy, history).Some? then [Cleared(env, policy, history).value] else [])
      && (Cleared(env, policy, history).Some? ==> |events| == 2 && events[1].Tapped?)
  {
    var events, cleared := Clearing(env, policy, history), Cleared(env, policy, history);
    if cleared.Some? {
      assert history + events[..0] == history;
      LookAndTap(cleared.value);
    } else if policy.mode != Manual {
      assert events[1..] == [];
    }
  }

  lemma TapsAppend(env: Environment, policy: AlertPolicy, history: seq<Event>, a: seq<Event>, b: seq<Event>)
    requires TapsByPolicy(env, policy, history, a) && TapsByPolicy(env, policy, history + a, b)
    ensures TapsByPolicy(env, policy, history, a + b)
  {
    var events := a + b;
    forall k | 0 <= k < |events| && events[k].Tapped? ensures TappedByPolicy(env, policy, history, events, k) {
      if k < |a| {
        assert TappedByPolicy(env, policy, history, a, k);
        assert events[..k - 1] == a[..k - 1];
      } else {
        assert TappedByPolicy(env, policy, history + a, b, k - |a|);
        assert history + events[..k - 1] == history + a + b[..k - |a| - 1];
      }
    }
  }

  lemma NoTaps(env: Environment, policy: AlertPolicy, history: seq<Event>, event: Event)
    requires !event.Tapped?
    ensures TapsByPolicy(env, policy, history, [event]) && Taps([event]) == []
    ensures Runs([event]) == if event.Ran? then [event.outcome] else []
  {
  }

  lemma AfterRunTaps(env: Environment, policy: AlertPolicy, history: seq<Event>, first: Outcome)
    ensures TapsByPolicy(env, policy, history, AfterRun(env, policy, history, first).events)
  {
    var e, waited := AfterRun(env, policy, history, first), Wait(policy, first);
    if Settles(policy, first) || Retried(first) {
      var h := history + waited;
      assert waited == [] ==> h == history;
      var clearing := Clearing(env, policy, h);
      ClearingTaps(env, policy, h);
      NoTaps(env, policy, history, Waited);
      TapsAppend(env, policy, history, waited, clearing);
      if Cleared(env, policy, h).Some? {
        NoTaps(env, policy, history + (waited + clearing), Ran(env.run(h + clearing)));
        TapsAppend(env, policy, history, waited + clearing, [Ran(env.run(h + clearing))]);
      }
    }
  }

  /** At most one tap, and at most one more run of the interaction, right after it. */
  predicate AtMostOneMore(first: Outcome, e: Episode) {
    var (events, runs) := (e.events, Runs(e.events));
    if runs == [] then |Taps(events)| == 0 && e.result == first
    else
      && |Taps(events)| == 1 && |runs| == 1 && |events| >= 2
      && events[|events| - 2].Tapped? && events[|events| - 1] == Ran(runs[0]) && Runs(events[..|events| - 2]) == []
      && (first.Completed? || Retried(first))
      && e.result == if first.Completed? && runs[0].NotFound? then Completed else runs[0]
  }

  lemma ThreeParts(settled: seq<Event>, button: string, again: Outcome)
    requires settled == [] || settled == [Waited]
    ensures var events := settled + [Looked, Tapped(button)] + [Ran(again)];
      && Runs(events) == [again] && Taps(events) == [button]
      && events[|events| - 2] == Tapped(button) && Runs(events[..|events| - 2]) == []
  {
    var events := settled + [Looked, Tapped(button)] + [Ran(again)];
    LookAndTap(button);
    Appended(settled + [Looked, Tapped(button)], [Ran(again)]);
    Appended(settled, [Looked, Tapped(button)]);
    Appended(settled, [Looked]);
    assert events[..|events| - 2] == settled + [Looked];
  }

  lemma NothingMore(waited: seq<Event>, clearing: seq<Event>, first: Outcome)
    requires waited == [] || waited == [Waited]
    requires clearing == [] || clearing == [Looked]
    ensures AtMostOneMore(first, Episode(waited + clearing, first))
  {
    Appended(waited, clearing);
  }

  lemma OneMore(waited: seq<Event>, button: string, first: Outcome, again: Outcome)
    requires waited == [] || waited == [Waited]
    requires first.Completed? || Retried(first)
    ensures AtMostOneMore(first, Episode(waited + [Looked, Tapped(button)] + [Ran(again)],
                                         if first.Completed? && again.NotFound? then Completed else again))
  {
    ThreeParts(waited, button, again);
  }

  lemma AfterRunLaws(env: Environment, policy: AlertPolicy, history: seq<Event>, first: Outcome)
    ensures AtMostOneMore(first, AfterRun(env, policy, history, first))
    ensures policy.mode == Manual ==> AfterRun(env, policy, history, first).events == []
  {
    var h := if Settles(policy, first) then history + [Waited] else history;
    var cleared, clearing := Cleared(env, policy, h), Clearing(env, policy, h);
    if Settles(policy, first) || Retried(first) {
      if cleared.None? {
        NothingMore(Wait(policy, first), clearing, first);
      } else {
        OneMore(Wait(policy, first), cleared.value, first, env.run(h + clearing));
      }
    }
  }

  lemma RecoveryTaps(env: Environment, policy: AlertPolicy, history: seq<Event>)
    ensures TapsByPolicy(env, policy, history, Recovered(env, policy, history).events)
  {
    var before := Clearing(env, policy, history);
    var first := env.run(history + before);
    var start := before + [Ran(first)];
    ClearingTaps(env, policy, history);
    NoTaps(env, policy, history + before, Ran(first));
    TapsAppend(env, policy, history, before, [Ran(first)]);
    assert history + start == history + before + [Ran(first)];
    AfterRunTaps(env, policy, history + start, first);
    TapsAppend(env, policy, history, start, AfterRun(env, policy, history + start, first).events);
  }

  /** The interaction runs a second time only as the last thing, right after a tap that followed the first run. */
  predicate SecondRunFollowsATap(events: seq<Event>) {
    var runs := Runs(events);
    |runs| == 2 ==>
      && (runs[0].Completed? || Retried(runs[0]))
      && |events| >= 3 && events[|events| - 2].Tapped? && events[|events| - 1] == Ran(runs[1])
      && Runs(events[..|events| - 2]) == [runs[0]]
  }

  /** Success: the last run completed, or the first did and the replay found nothing left to do. */
  predicate ResultIsTheLastRuns(e: Episode) {
    var runs := Runs(e.events);
    && runs != []
    && (e.result.Completed? <==> runs[|runs| - 1].Completed? || (|runs| == 2 && runs[0].Completed? && runs[1].NotFound?))
    && (!e.result.Completed? ==> e.result == runs[|runs| - 1])
  }

  /**
   Whatever the environment does: the interaction runs once or twice, a second time only right after
   a dialog was cleared following the first run, and only if the first run completed or could not
   find or touch its element; at most two dialogs are cleared, by the policy; and it succeeds exactly
   if the last run completed, or the first did and a replay found nothing left to do. Failures
   are those of the last run. Under `manual` it runs once and nothing is tapped.
  */
  lemma RecoveryLaws(env: Environment, policy: AlertPolicy, history: seq<Event>)
    ensures var e := Recovered(env, policy, history);
      && 1 <= |Runs(e.events)| <= 2 && |Taps(e.events)| <= 2 && TapsByPolicy(env, policy, history, e.events)
      && SecondRunFollowsATap(e.events) && ResultIsTheLastRuns(e)
      && (policy.mode == Manual ==> |e.events| == 1 && e.events[0].Ran?)
  {
    var before := Clearing(env, policy, history);
    var first := env.run(history + before);
    var rest := AfterRun(env, policy, history + before + [Ran(first)], first);
    RecoveryTaps(env, policy, history);
    ClearingTaps(env, policy, history);
    AfterRunLaws(env, policy, history + before + [Ran(first)], first);
    Combined(before, first, rest);
  }

  lemma RunsAgain(env: Environment, policy: AlertPolicy, history: seq<Event>)
    ensures var events := Recovered(env, policy, history).events;
      var before := Clearing(env, policy, history);
      && |events| > |before| && events[..|before|] == before && events[|before|].Ran?
      && var first := events[|before|].outcome;
         var after := history + events[..|before| + 1] + if Settles(policy, first) then [Waited] else [];
         && first == env.run(history + before)
         && (|Runs(events)| == 2 <==> (first.Completed? || Retried(first)) && Cleared(env, policy, after).Some?)
         && (|Runs(events)| == 2 ==> events[|events| - 2] == Tapped(Cleared(env, policy, after).value))
  {
    var before := Clearing(env, policy, history);
    var first := env.run(history + before);
    var h1 := history + before + [Ran(first)];
    var more := AfterRun(env, policy, h1, first).events;
    FirstRunAt(history, before, first, more);
    ClearingTaps(env, policy, history);
    CombinedEvents(before, first, more);
    AfterRunAgain(env, policy, h1, first);
    AfterRunLaws(env, policy, h1, first);
    if |more| >= 2 { CutBeforeTap(before + [Ran(first)], more); }
  }

  lemma SameStart(events: seq<Event>, before: seq<Event>)
    requires |events| > |before| && events[..|before|] == before
    ensures before != [] ==> events[0] == before[0]
    ensures |before| == 2 ==> events[1] == before[1]
  {
  }

  /**
   And it does not give up early: a dialog in the way is cleared before the first run, and the
   interaction runs again whenever it can: exactly if the first run completed or could not find or
   touch its element, and then, once the screen has settled after a success, a dialog is in the way,
   which is cleared.
  */
  lemma SecondRunExactlyWhen(env: Environment, policy: AlertPolicy, history: seq<Event>)
    ensures var events := Recovered(env, policy, history).events;
      var n := if policy.mode == Manual then 0 else if InTheWay(env, policy, history) then 2 else 1;
      && |events| > n && events[n].Ran? && events[n].outcome == env.run(history + events[..n])
      && (n >= 1 ==> events[0] == Looked)
      && (n == 2 ==> events[1] == Tapped(Chosen(policy, env.dialog(history).value)))
      && var first := events[n].outcome;
         var after := history + events[..n + 1] + if first.Completed? && policy.mode != Manual then [Waited] else [];
         && (|Runs(events)| == 2 <==>
           (first.Completed? || first.NotFound? || first.NotInteractable?) && InTheWay(env, policy, after))
         && (|Runs(events)| == 2 ==> events[|events| - 2] == Tapped(Chosen(policy, env.dialog(after).value)))
  {
    var events, before := Recovered(env, policy, history).events, Clearing(env, policy, history);
    RunsAgain(env, policy, history);
    DialogsAreCleared(env, policy, history);
    SameStart(events, before);
    var first := events[|before|].outcome;
    DialogsAreCleared(env, policy, history + events[..|before| + 1] + if Settles(policy, first) then [Waited] else []);
  }

  lemma FirstRunAt(history: seq<Event>, before: seq<Event>, first: Outcome, more: seq<Event>)
    ensures var events := before + [Ran(first)] + more;
      && events[..|before|] == before && events[|before|] == Ran(first)
      && history + events[..|before| + 1] == history + before + [Ran(first)]
      && history + events[..|before| + 1] + [] == history + before + [Ran(first)]
  {
    assert (before + [Ran(first)] + more)[..|before| + 1] == before + [Ran(first)];
  }

  lemma AfterRunAgain(env: Environment, policy: AlertPolicy, history: seq<Event>, first: Outcome)
    ensures var e := AfterRun(env, policy, history, first).events;
      var after := if Settles(policy, first) then history + [Waited] else history;
      && (Runs(e) != [] <==> (first.Completed? || Retried(first)) && Cleared(env, policy, after).Some?)
      && (Runs(e) != [] ==> |e| >= 2 && e[|e| - 2] == Tapped(Cleared(env, policy, after).value))
  {
    var h := if Settles(policy, first) then history + [Waited] else history;
    var cleared, clearing := Cleared(env, policy, h), Clearing(env, policy, h);
    if cleared.Some? {
      ThreeParts(Wait(policy, first), cleared.value, env.run(h + clearing));
    } else {
      Appended(Wait(policy, first), clearing);
    }
  }

  lemma CombinedEvents(before: seq<Event>, first: Outcome, more: seq<Event>)
    requires Runs(before) == []
    ensures Runs(before + [Ran(first)] + more) == [first] + Runs(more)
    ensures Taps(before + [Ran(first)] + more) == Taps(before) + Taps(more)
  {
    Appended(before, [Ran(first)]);
    Appended(before + [Ran(first)], more);
  }

  lemma CutBeforeTap(start: seq<Event>, more: seq<Event>)
    requires |more| >= 2
    ensures var events := start + more;
      && events[|events| - 2] == more[|more| - 2] && events[|events| - 1] == more[|more| - 1]
      && events[..|events| - 2] == start + more[..|more| - 2]
  {
  }

  lemma Combined(before: seq<Event>, first: Outcome, rest: Episode)
    requires Runs(before) == [] && |Taps(before)| <= 1 && AtMostOneMore(first, rest)
    ensures var e := Episode(before + [Ran(first)] + rest.events, rest.result);
      && 1 <= |Runs(e.events)| <= 2 && |Taps(e.events)| <= 2 && SecondRunFollowsATap(e.events) && ResultIsTheLastRuns(e)
  {
    CombinedEvents(before, first, rest.events);
    if Runs(rest.events) != [] {
      CutBeforeTap(before + [Ran(first)], rest.events);
      CombinedEvents(before, first, rest.events[..|rest.events| - 2]);
    }
  }

  // ---- The agent ---------------------------------------------------------------------------------------------------

  function Strings(all: seq<Json>): seq<string> {
    if all == [] then []
    else (if all[0].String? then [all[0].StringValue().value] else []) + Strings(all[1..])
  }

  /** The strings among the values, and nothing else, in their order. */
  lemma {:induction false} StringsInOrder(a: seq<Json>, b: seq<Json>)
    ensures Strings(a + b) == Strings(a) + Strings(b)
    ensures |a| == 1 ==> Strings(a) == if a[0].String? then [a[0].StringValue().value] else []
    decreases |a|
  {
    if a == [] {
      assert a + b == b;
    } else {
      assert (a + b)[0] == a[0] && (a + b)[1..] == a[1..] + b;
      StringsInOrder(a[1..], b);
      var head, rest, more := if a[0].String? then [a[0].StringValue().value] else [], Strings(a[1..]), Strings(b);
      assert head + (rest + more) == head + rest + more;
    }
  }

  function ModeNamed(name: string): Option<Mode> {
    match name
    case "manual" => Some(Manual)
    case "dismiss" => Some(Dismiss)
    case "accept" => Some(Accept)
    case _ => None
  }

  // ---- Waiting, poll by poll --------------------------------------------------------------------------------

  /** After a look at the condition that found it false: a dialog is cleared, or there is a pause. */
  function Poll(env: Environment, policy: AlertPolicy, history: seq<Event>): (r: seq<Event>)
    ensures r != []
  {
    Clearing(env, policy, history) + if Cleared(env, policy, history).Some? then [] else [Waited]
  }

  /** A look at the condition that found it false, and the poll after it. */
  function Round(env: Environment, policy: AlertPolicy, history: seq<Event>): (r: seq<Event>)
    ensures r != [] && r[0] == Checked(false)
  {
    [Checked(false)] + Poll(env, policy, history + [Checked(false)])
  }

  /** The events of the first `n` rounds of a wait begun at `start`. */
  function Rounds(env: Environment, policy: AlertPolicy, start: seq<Event>, n: nat): seq<Event> {
    if n == 0 then []
    else Rounds(env, policy, start, n - 1) + Round(env, policy, start + Rounds(env, policy, start, n - 1))
  }

  function After(env: Environment, policy: AlertPolicy, start: seq<Event>, n: nat): seq<Event> {
    start + Rounds(env, policy, start, n)
  }

  lemma OneMoreRound(env: Environment, policy: AlertPolicy, start: seq<Event>, n: nat)
    ensures After(env, policy, start, 0) == start
    ensures var before := After(env, policy, start, n);
      After(env, policy, start, n + 1) == before + Round(env, policy, before)
  {
  }

  /** The condition is false at the start of each of `n` rounds, and the deadline has not passed between them. */
  ghost predicate KeepsWaiting(env: Environment, policy: AlertPolicy, start: seq<Event>, n: nat) {
    && (forall i :: 0 <= i < n ==> !env.satisfied(After(env, policy, start, i)))
    && (forall i :: 0 < i < n ==> !env.expired(After(env, policy, start, i)))
  }

  /** A wait begun at `start` ends after `n` rounds: with the condition met, or with the deadline passed. */
  ghost predicate WaitEnds(env: Environment, policy: AlertPolicy, start: seq<Event>, n: nat, met: bool) {
    && KeepsWaiting(env, policy, start, n)
    && var reached := After(env, policy, start, n);
       if met then env.satisfied(reached) && (n > 0 ==> !env.expired(reached)) else n > 0 && env.expired(reached)
  }

  function Waiting(env: Environment, policy: AlertPolicy, start: seq<Event>, n: nat, met: bool): seq<Event> {
    if met then Rounds(env, policy, start, n) + [Checked(true)] else Rounds(env, policy, start, n)
  }

  /** A wait can end in one way only. */
  lemma WaitEndsOnce(env: Environment, policy: AlertPolicy, start: seq<Event>, n: nat, met: bool, n': nat, met': bool)
    requires WaitEnds(env, policy, start, n, met) && WaitEnds(env, policy, start, n', met')
    ensures n == n' && met == met'
  {
    assert n < n' ==> !env.satisfied(After(env, policy, start, n));
    assert n' < n ==> !env.satisfied(After(env, policy, start, n'));
  }

  /** A round looks, clears a dialog that is in the way, and pauses if there was none. */
  lemma RoundIs(env: Environment, policy: AlertPolicy, history: seq<Event>)
    ensures var h := history + [Checked(false)];
      Round(env, policy, history) == [Checked(false)] +
        if policy.mode == Manual then [Waited]
        else if InTheWay(env, policy, h) then [Looked, Tapped(Chosen(policy, env.dialog(h).value))] else [Looked, Waited]
  {
    DialogsAreCleared(env, policy, history + [Checked(false)]);
  }

  lemma PollLaws(env: Environment, policy: AlertPolicy, history: seq<Event>)
    ensures var poll := Poll(env, policy, history);
      && Runs(poll) == [] && TapsByPolicy(env, policy, history, poll)
      && forall k :: 0 <= k < |poll| ==> !poll[k].Checked?
  {
    var clearing := Clearing(env, policy, history);
    ClearingTaps(env, policy, history);
    if Cleared(env, policy, history).Some? {
      assert clearing + [] == clearing;
    } else {
      NoTaps(env, policy, history + clearing, Waited);
      TapsAppend(env, policy, history, clearing, [Waited]);
      Appended(clearing, [Waited]);
    }
  }

  lemma RoundLaws(env: Environment, policy: AlertPolicy, history: seq<Event>)
    ensures var round := Round(env, policy, history);
      && Runs(round) == [] && TapsByPolicy(env, policy, history, round)
      && forall k :: 1 <= k < |round| ==> !round[k].Checked?
  {
    var poll := Poll(env, policy, history + [Checked(false)]);
    PollLaws(env, policy, history + [Checked(false)]);
    NoTaps(env, policy, history, Checked(false));
    TapsAppend(env, policy, history, [Checked(false)], poll);
    Appended([Checked(false)], poll);
  }

  lemma {:induction false} RoundsTap(env: Environment, policy: AlertPolicy, start: seq<Event>, n: nat)
    ensures Runs(Rounds(env, policy, start, n)) == [] && TapsByPolicy(env, policy, start, Rounds(env, policy, start, n))
  {
    if n > 0 {
      var before, round := Rounds(env, policy, start, n - 1), Round(env, policy, After(env, policy, start, n - 1));
      RoundsTap(env, policy, start, n - 1);
      RoundLaws(env, policy, start + before);
      Appended(before, round);
      TapsAppend(env, policy, start, before, round);
    }
  }

  /** The look at `k` found what was so at that moment. */
  predicate LookedRight(env: Environment, start: seq<Event>, events: seq<Event>, k: nat)
    requires k < |events| && events[k].Checked?
  {
    events[k].met == env.satisfied(start + events[..k])
  }

  ghost predicate LooksFail(env: Environment, start: seq<Event>, events: seq<Event>) {
    forall k :: 0 <= k < |events| && events[k].Checked? ==> !events[k].met && LookedRight(env, start, events, k)
  }

  lemma OneMoreLook(env: Environment, policy: AlertPolicy, start: seq<Event>, events: seq<Event>, more: seq<Event>)
    requires LooksFail(env, start, events) && more != [] && forall k :: 1 <= k < |more| ==> !more[k].Checked?
    requires more[0] == Checked(env.satisfied(start + events))
    ensures var all := events + more;
      && (forall k :: 0 <= k < |all| && all[k].Checked? ==> LookedRight(env, start, all, k) && (all[k].met ==> k == |events|))
      && (!more[0].met ==> LooksFail(env, start, all))
  {
    var all := events + more;
    forall k | 0 <= k < |all| && all[k].Checked? ensures LookedRight(env, start, all, k) && (all[k].met ==> k == |events|) {
      if k < |events| {
        assert all[..k] == events[..k] && LookedRight(env, start, events, k);
      } else {
        assert k == |events| && all[..k] == events;
      }
    }
  }

  lemma {:induction false} RoundsLook(env: Environment, policy: AlertPolicy, start: seq<Event>, n: nat)
    requires KeepsWaiting(env, policy, start, n)
    ensures LooksFail(env, start, Rounds(env, policy, start, n))
  {
    if n > 0 {
      RoundsLook(env, policy, start, n - 1);
      RoundLaws(env, policy, After(env, policy, start, n - 1));
      OneMoreLook(env, policy, start, Rounds(env, policy, start, n - 1), Round(env, policy, After(env, policy, start, n - 1)));
    }
  }

  /**
   What a wait does, whatever the environment: every look finds what is so at that moment, and only a
   last one finds the condition met; giving up means that the deadline has passed. It runs nothing and
   taps by the policy only.
  */
  lemma WaitingLaws(env: Environment, policy: AlertPolicy, start: seq<Event>, n: nat, met: bool)
    requires WaitEnds(env, policy, start, n, met)
    ensures var events := Waiting(env, policy, start, n, met);
      && Runs(events) == [] && TapsByPolicy(env, policy, start, events)
      && (!met ==> env.expired(start + events) && LooksFail(env, start, events))
      && (met ==> events != [] && events[|events| - 1] == Checked(true))
      && forall k :: 0 <= k < |events| && events[k].Checked? ==>
           LookedRight(env, start, events, k) && (events[k].met ==> k == |events| - 1)
  {
    var rounds := Rounds(env, policy, start, n);
    RoundsTap(env, policy, start, n);
    RoundsLook(env, policy, start, n);
    if met {
      NoTaps(env, policy, start + rounds, Checked(true));
      Appended(rounds, [Checked(true)]);
      TapsAppend(env, policy, start, rounds, [Checked(true)]);
      OneMoreLook(env, policy, start, rounds, [Checked(true)]);
    }
  }

  lemma TapsOfRound(env: Environment, policy: AlertPolicy, history: seq<Event>)
    ensures (Taps(Round(env, policy, history)) != []) == Cleared(env, policy, history + [Checked(false)]).Some?
  {
    var h := history + [Checked(false)];
    var clearing, poll := Clearing(env, policy, h), Poll(env, policy, h);
    ClearingTaps(env, policy, h);
    Appended(clearing, poll[|clearing|..]);
    Appended([Checked(false)], poll);
  }

  lemma TapsGrow(env: Environment, policy: AlertPolicy, start: seq<Event>, n: nat)
    ensures Taps(Waiting(env, policy, start, n, true)) == Taps(Rounds(env, policy, start, n))
    ensures (Taps(Rounds(env, policy, start, n + 1)) != []) ==
      (Taps(Rounds(env, policy, start, n)) != [] || Cleared(env, policy, After(env, policy, start, n) + [Checked(false)]).Some?)
  {
    Appended(Rounds(env, policy, start, n), [Checked(true)]);
    TapsOfRound(env, policy, After(env, policy, start, n));
    Appended(Rounds(env, policy, start, n), Round(env, policy, After(env, policy, start, n)));
  }

  lemma Regrouped(a: seq<Event>, b: seq<Event>, c: seq<Event>, d: seq<Event>)
    ensures a + (b + c + d) == a + b + c + d
    ensures a + (b + c) == a + b + c
    ensures a + ([] + c + d) == a + c + d && a + ([] + c) == a + c
  {
  }

  /** The part of the command router that deals with dialogs. `history` is what it has done. */
  class CommandRouter {
    var alertPolicy: AlertPolicy
    var history: seq<Event>
    const env: Environment

    constructor (env: Environment)
      ensures this.env == env && alertPolicy == AlertPolicy(Manual, []) && history == []
    {
      this.env := env;
      alertPolicy := AlertPolicy(Manual, []);
      history := [];
    }

    /** The policy is replaced as a whole, or, when the name is unknown, kept as a whole. */
    method SetAlertPolicy(policy: Option<string>, buttons: Option<Json>) returns (ok: bool)
      modifies this`alertPolicy
      ensures ok <==> policy.None? || policy.value in {"manual", "dismiss", "accept"}
      ensures !ok ==> alertPolicy == old(alertPolicy)
      ensures var named := if policy == Some("dismiss") then Dismiss else if policy == Some("accept") then Accept else Manual;
        ok ==> alertPolicy.mode == named
      ensures ok ==> alertPolicy.buttons == if buttons.Some? && buttons.value.Array? then Strings(buttons.value.all) else []
    {
      var mode := ModeNamed(if policy.Some? then policy.value else "manual");
      if mode.None? { return false; }
      var next := AlertPolicy(mode.value, []);
      if buttons.Some? && buttons.value.Array? { next := next.(buttons := Strings(buttons.value.all)); }
      alertPolicy := next;
      return true;
    }

    method HandleInterruptionIfNeeded() returns (tapped: Option<string>)
      modifies this`history
      ensures tapped == Cleared(env, alertPolicy, old(history))
      ensures history == old(history) + Clearing(env, alertPolicy, old(history))
      ensures tapped.Some? <==> InTheWay(env, alertPolicy, old(history))
      ensures tapped.Some? ==> tapped.value == Chosen(alertPolicy, env.dialog(old(history)).value)
      ensures history == old(history) + (
        if alertPolicy.mode == Manual then [] else if tapped.Some? then [Looked, Tapped(tapped.value)] else [Looked])
    {
      if alertPolicy.mode == Manual { return None; }
      var alert := env.dialog(history);
      history := history + [Looked];
      if alert.None? || alert.value == [] { return None; }
      var labels := alert.value;
      var preferred := FirstPresent(alertPolicy.buttons, labels);
      var chosen := if preferred.Some? then preferred.value
                    else if alertPolicy.mode == Accept then labels[|labels| - 1] else labels[0];
      if !env.tappable(history, chosen) { return None; }
      history := history + [Tapped(chosen)];
      return Some(chosen);
    }

    /** One run of the interaction. */
    method Run() returns (outcome: Outcome)
      modifies this`history
      ensures outcome == env.run(old(history)) && history == old(history) + [Ran(outcome)]
    {
      outcome := env.run(history);
      history := history + [Ran(outcome)];
    }

    method WithInterruptionRecovery() returns (result: Outcome)
      modifies this`history
      ensures var e := Recovered(env, alertPolicy, old(history));
        history == old(history) + e.events && result == e.result
    {
      var cleared := HandleInterruptionIfNeeded();
      var first := Run();
      ghost var before, h1 := Clearing(env, alertPolicy, old(history)), history;
      Regrouped(old(history), before, [Ran(first)], AfterRun(env, alertPolicy, h1, first).events);
      ghost var h2 := if Settles(alertPolicy, first) then h1 + [Waited] else h1;
      ghost var clearing := Clearing(env, alertPolicy, h2);
      Regrouped(h1, Wait(alertPolicy, first), clearing, [Ran(env.run(h2 + clearing))]);
      if !first.Completed? {
        if !first.NotFound? && !first.NotInteractable? { return first; }
        cleared := HandleInterruptionIfNeeded();
        if cleared.None? { return first; }
        result := Run();
        return;
      }
      if alertPolicy.mode == Manual { return Completed; }
      history := history + [Waited];
      cleared := HandleInterruptionIfNeeded();
      if cleared.None? { return Completed; }
      result := Run();
      if result.NotFound? { result := Completed; }
    }

    /** A look at the condition; if it does not hold, a dialog in the way is cleared, and without one there is a pause. */
    method LookAndPoll() returns (met: bool, cleared: bool)
      modifies this`history
      ensures met == env.satisfied(old(history))
      ensures history == old(history) + if met then [Checked(true)] else Round(env, alertPolicy, old(history))
      ensures cleared == (!met && Cleared(env, alertPolicy, old(history) + [Checked(false)]).Some?)
    {
      met := env.satisfied(history);
      history := history + [Checked(met)];
      if met { return true, false; }
      var tapped := HandleInterruptionIfNeeded();
      if tapped.None? { history := history + [Waited]; }
      return false, tapped.Some?;
    }

    /**
     Polling for a condition, event for event. `patience` stands for the clock: after so many events
     the deadline has passed.
    */
    method WaitForElement(ghost patience: nat) returns (met: bool, handledInterruption: bool, ghost rounds: nat)
      requires forall h: seq<Event> :: |h| >= patience ==> env.expired(h)
      modifies this`history
      ensures WaitEnds(env, alertPolicy, old(history), rounds, met)
      ensures var events := Waiting(env, alertPolicy, old(history), rounds, met);
        history == old(history) + events && (handledInterruption <==> Taps(events) != [])
    {
      handledInterruption := false;
      rounds := 0;
      ghost var start := history;
      OneMoreRound(env, alertPolicy, start, 0);
      while true
        invariant history == After(env, alertPolicy, start, rounds) && KeepsWaiting(env, alertPolicy, start, rounds)
        invariant rounds > 0 ==> !env.expired(history)
        invariant handledInterruption <==> Taps(Rounds(env, alertPolicy, start, rounds)) != []
        decreases if |history| < patience then patience - |history| else 0
      {
        OneMoreRound(env, alertPolicy, start, rounds);
        TapsGrow(env, alertPolicy, start, rounds);
        var cleared;
        met, cleared := LookAndPoll();
        if met { return true, handledInterruption, rounds; }
        handledInterruption := handledInterruption || cleared;
        rounds := rounds + 1;
        if env.expired(history) { return false, handledInterruption, rounds; }
      }
    }
  }
}
