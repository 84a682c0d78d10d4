/** Recorded steps: what a recorded statement does when the test is run. */
module Recording {
  import opened Wrappers
  import opened PythonText
  import opened PythonCode
  import opened PythonReading
  import opened DisplayedCode
  import opened Selectors
  import Decimal
  import Snapshot
  import L = Locators

  /** What an action on a locator adds to it. */
  function Suffix(action: Action): string {
    match action
    case Tap => ".tap()"
    case Clear => ".clear()"
    case Fill(text) => ".fill(\"" + Escape(text) + "\")"
  }

  /** The statement recorded for an action, made with a suggestion, on the element it is for. */
  function Recorded(s: L.Suggestion, action: Action): string {
    Inline(s.code) + Suffix(action)
  }

  // ---- More code does not change what was read -----------------------------------------------------------------

  lemma {:induction false} LiteralStays(s: string, quote: char, more: string)
    requires IsQuote(quote)
    ensures var r := ReadLiteral(s, quote); r.Read? ==> ReadLiteral(s + more, quote) == Read(r.value, r.rest + more)
    decreases |s|
  {
    var r := ReadLiteral(s, quote);
    if r.Read? {
      assert (s + more)[0] == s[0] && (s + more)[1..] == s[1..] + more;
      if s[0] == '\\' {
        assert (s + more)[1] == s[1] && (s + more)[2..] == s[2..] + more;
        LiteralStays(s[2..], quote, more);
      } else if s[0] != quote {
        LiteralStays(s[1..], quote, more);
      }
    }
  }

  lemma {:induction false} NameStays(s: string, more: string)
    ensures NameLength(s) < |s| ==> NameLength(s + more) == NameLength(s)
    decreases |s|
  {
    if NameLength(s) < |s| {
      assert (s + more)[0] == s[0] && (s + more)[1..] == s[1..] + more;
      if IsNameChar(s[0]) { NameStays(s[1..], more); }
    }
  }

  lemma {:induction false} SpacesStay(s: string, more: string)
    ensures SkipSpaces(s) != "" ==> SkipSpaces(s + more) == SkipSpaces(s) + more
    decreases |s|
  {
    if SkipSpaces(s) != "" {
      assert (s + more)[0] == s[0] && (s + more)[1..] == s[1..] + more;
      if s[0] == ' ' { SpacesStay(s[1..], more); }
    }
  }

  lemma CutBefore(s: string, n: nat, more: string)
    requires n <= |s|
    ensures (s + more)[..n] == s[..n] && (s + more)[n..] == s[n..] + more
  {
  }

  lemma ArgumentStays(s: string, more: string)
    ensures var one := ReadOne(s); one.AnArgument? ==> ReadOne(s + more) == AnArgument(one.argument, one.rest + more)
  {
    if ReadOne(s).AnArgument? {
      var n := NameLength(s);
      var after := s[n..];
      var literal := if n == 0 then after else after[1..];
      NameStays(s, more);
      CutBefore(s, n, more);
      CutBefore(after, 1, more);
      CutBefore(literal, 1, more);
      LiteralStays(literal[1..], literal[0], more);
    }
  }

  lemma {:induction false} ArgumentsStay(s: string, more: string)
    ensures var r := ReadAll(s); r.SomeArguments? ==> ReadAll(s + more) == SomeArguments(r.all, r.rest + more)
    decreases |s|
  {
    if ReadAll(s).SomeArguments? {
      var one := ReadOne(SkipSpaces(s));
      var after := SkipSpaces(one.rest);
      SpacesStay(s, more);
      ArgumentStays(SkipSpaces(s), more);
      SpacesStay(one.rest, more);
      CutBefore(after, 1, more);
      if after[0] == ',' {
        var next := SkipSpaces(after[1..]);
        SpacesStay(after[1..], more);
        if next != "" && next[0] == ')' {
          CutBefore(next, 1, more);
        } else {
          ArgumentsStay(next, more);
        }
      }
    }
  }

  lemma {:induction false} DigitsStay(s: string, more: string)
    ensures DigitLength(s) < |s| ==> DigitLength(s + more) == DigitLength(s)
    decreases |s|
  {
    if DigitLength(s) < |s| {
      assert (s + more)[0] == s[0] && (s + more)[1..] == s[1..] + more;
      if Decimal.IsDigit(s[0]) { DigitsStay(s[1..], more); }
    }
  }

  lemma IndexStays(made: Selector, rest: string, more: string)
    requires !(".nth(" <= more)
    ensures var r := Refined(made, rest);
      r.Located? && r.rest == "" ==> Refined(made, rest + more) == Located(r.selector, more)
  {
    var r := Refined(made, rest);
    if r.Located? && r.rest == "" {
      if ".nth(" <= rest {
        var n := DigitLength(rest[5..]);
        var after := rest[5..][n..];
        CutBefore(rest, 5, more);
        DigitsStay(rest[5..], more);
        CutBefore(rest[5..], n, more);
        CutBefore(after, 1, more);
        assert "" + more == more;
      } else {
        assert rest + more == more;
      }
    }
  }

  /** A whole locator is read as before when an action follows it. */
  lemma LocatorStays(code: string, more: string)
    requires Evaluate(code).Some? && !(".nth(" <= more)
    ensures ReadLocator(code + more) == Located(Evaluate(code).value, more)
  {
    var n := NameLength(code[5..]);
    var after := code[5..][n..];
    CutBefore(code, 5, more);
    NameStays(code[5..], more);
    CutBefore(code[5..], n, more);
    CutBefore(after, 1, more);
    ArgumentsStay(after[1..], more);
    var arguments := ReadAll(after[1..]);
    IndexStays(Call(code[5..][..n], arguments.all).value, arguments.rest, more);
  }

  // ---- Actions ------------------------------------------------------------------------------------------------------

  lemma FillIsRead(text: string)
    ensures ReadAction(Suffix(Fill(text))) == if Quotable(text) then Some(Fill(text)) else None
  {
    var suffix := Suffix(Fill(text));
    FillText(Escape(text));
    assert suffix[6..] == ArgumentText("", text) + ")";
    ArgumentIsRead("", text, ")");
  }

  lemma FillText(escaped: string)
    ensures ".fill(\"" + escaped + "\")" == ".fill(" + ("" + "\"" + escaped + "\"" + ")")
  {
    assert ".fill(\"" == ".fill(" + "\"";
    assert "\")" == "\"" + ")";
  }

  predicate Replayable(action: Action) {
    action.Fill? ==> Quotable(action.text)
  }

  lemma ActionIsRead(action: Action)
    ensures ReadAction(Suffix(action)) == if Replayable(action) then Some(action) else None
    ensures !(".nth(" <= Suffix(action))
  {
    assert Suffix(action)[1] != ".nth("[1];
    if action.Fill? { FillIsRead(action.text); }
  }

  /**
   A recorded step replays what was done: where the displayed locator is the executed one, the
   recorded statement performs the same action on it, whatever text was typed, if and only if that
   text can stand in a literal on one line. Otherwise it is not a statement at all.
  */
  lemma RecordedIsPerformed(
      app: Snapshot.Element, o: Snapshot.Options, tree: Snapshot.Node, n: Snapshot.Node, s: L.Suggestion, action: Action)
    requires Snapshot.Serialize(app, o) == Some(tree) && n in Snapshot.IterNodes(tree)
    requires s in L.Candidates(n, tree) && Survives(s)
    ensures ReadStatement(Recorded(s, action)) == if Replayable(action) then Some(Statement(L.Build(s), action)) else None
  {
    DisplayedIsExecuted(app, o, tree, n, s);
    ActionIsRead(action);
    LocatorStays(Inline(s.code), Suffix(action));
  }
}
