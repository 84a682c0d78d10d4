/** The code of suggestions by predicate, which quotes its text between apostrophes and does not escape it for that. */
module PredicateCode {
  import opened Wrappers
  import opened PythonText
  import opened PythonCode
  import opened PythonReading
  import opened Inlining
  import opened Selectors
  import L = Locators

  // ---- A text between quotes as it is ---------------------------------------------------------------------

  /** A backslash stands before one of these. */
  predicate Escapes(s: string, i: nat)
    requires i < |s|
  {
    s[i] == '\\' && (i == |s| - 1 || s[i + 1] == '\\' || s[i + 1] == '"' || s[i + 1] == '\'')
  }

  /** In a literal, the text says itself. */
  ghost predicate Verbatim(s: string, quote: char) {
    forall i :: 0 <= i < |s| ==> !EndsLiteral(s[i]) && s[i] != quote && !Escapes(s, i)
  }

  lemma VerbatimFirst(c: string, s: string, quote: char)
    requires Verbatim(s, quote) && forall d <- c :: !EndsLiteral(d) && d != quote
    requires (|c| == 1 && c[0] != '\\') || (|c| == 2 && c[0] == '\\' && c[1] != '\\' && c[1] != '"' && c[1] != '\'')
    ensures Verbatim(c + s, quote)
  {
    var all := c + s;
    forall i | 0 <= i < |all| ensures !EndsLiteral(all[i]) && all[i] != quote && !Escapes(all, i) {
      if i < |c| { assert all[i] in c; } else { assert !Escapes(s, i - |c|); }
    }
  }

  ghost predicate Shortens(s: string, quote: char, value: string, rest: string) {
    && |value| + 1 + |rest| <= |s|
    && (|value| + 1 + |rest| == |s| ==> s == value + [quote] + rest && Verbatim(value, quote))
  }

  lemma OneStep(s: string, n: nat, front: string, quote: char, value: string, rest: string)
    requires n <= |s| && |front| <= n && Shortens(s[n..], quote, value, rest)
    requires |front| == n ==> front == s[..n] && forall d <- front :: !EndsLiteral(d) && d != quote
    requires |front| == n ==>
      ((n == 1 && front[0] != '\\') || (n == 2 && front[0] == '\\' && front[1] != '\\' && front[1] != '"' && front[1] != '\''))
    ensures Shortens(s, quote, front + value, rest)
  {
    if |front + value| + 1 + |rest| == |s| {
      VerbatimFirst(front, value, quote);
      assert s == s[..n] + s[n..];
      assert front + value + [quote] + rest == front + (value + [quote] + rest);
    }
  }

  /** Reading a literal never lengthens it, and keeps its length only if it reads it as it is. */
  lemma {:induction false} ReadingShortens(s: string, quote: char)
    requires IsQuote(quote)
    ensures var r := ReadLiteral(s, quote); r.Read? ==> Shortens(s, quote, r.value, r.rest)
    decreases |s|
  {
    var r := ReadLiteral(s, quote);
    if r.Read? {
      if s[0] == quote {
        assert s == "" + [quote] + s[1..];
      } else {
        var n := if s[0] == '\\' then 2 else 1;
        var front := if n == 2 then Unescaped(s[1]).value else [s[0]];
        ReadingShortens(s[n..], quote);
        OneStep(s, n, front, quote, ReadLiteral(s[n..], quote).value, r.rest);
      }
    }
  }

  lemma {:induction false} PlainIsRead(s: string, quote: char, rest: string)
    requires IsQuote(quote) && quote !in s && '\\' !in s && forall c <- s :: !EndsLiteral(c)
    ensures ReadLiteral(s + [quote] + rest, quote) == Read(s, rest)
    decreases |s|
  {
    var all := s + [quote] + rest;
    if s != "" {
      assert all[0] == s[0] && s[0] in s && all[1..] == s[1..] + [quote] + rest;
      PlainIsRead(s[1..], quote, rest);
    } else {
      assert all == [quote] + rest;
    }
  }

  // ---- Mending and dropping spaces shorten --------------------------------------------------------------------

  lemma StripShortens(s: string)
    ensures |Strip(s)| <= |s| && |RightStrip(s)| <= |s|
  {
  }

  lemma {:induction false} MendedTailShortens(s: string)
    ensures |MendedTail(s)| <= |s|
    decreases |s|
  {
    if OneLine(s) {
      WithoutBreak(s);
    } else {
      var a, c, b := AtBreak(s);
      MendedTailAt(a, c, b);
      StripShortens(a);
      MendedTailShortens(b);
    }
  }

  lemma ShownShortens(s: string)
    ensures |Shown(s)| <= |s|
  {
    if OneLine(s) {
      WithoutBreak(s);
    } else {
      var a, c, b := AtBreak(s);
      MendedAt(a, c, b);
      StripShortens(a);
      MendedTailShortens(b);
    }
    var m := Mended(s);
    var m1 := Replace(m, "( ", "(");
    ReplaceShortens(m, "( ", "(");
    ReplaceShortens(m1, " )", ")");
    ReplaceShortens(Replace(m1, " )", ")"), ", )", ")");
  }

  // ---- The format -------------------------------------------------------------------------------------------------

  /** A backslash with a backslash or a double quote after it. */
  ghost predicate HasEscape(s: string) {
    exists i :: 0 <= i < |s| - 1 && Escapes(s, i)
  }

  lemma HasEscapeAround(a: string, s: string, b: string)
    requires HasEscape(s)
    ensures HasEscape(a + s + b)
  {
    var i :| 0 <= i < |s| - 1 && Escapes(s, i);
    assert Escapes(a + s + b, |a| + i);
  }

  lemma {:induction false} EscapedHasEscape(value: string)
    ensures '\\' in Escape(value) <==> '\\' in value || '"' in value
    ensures '\\' in Escape(value) ==> HasEscape(Escape(value))
    ensures forall c :: c != '\\' && c != '"' ==> (c in Escape(value) <==> c in value)
    decreases |value|
  {
    if value != "" {
      var c, others := value[0], value[1..];
      assert value == [c] + others;
      EscapeFirst(c, others);
      EscapedHasEscape(others);
      if c == '\\' || c == '"' {
        assert Escapes(Escape(value), 0);
      } else if '\\' in Escape(others) {
        HasEscapeAround([c], Escape(others), "");
        assert [c] + Escape(others) + "" == Escape(value);
      }
    }
  }

  lemma KeyAndValue(key: string, value: string)
    requires '\\' !in key
    ensures var part := key + L.Quoted(Escape(value));
      && ('\\' in part <==> '\\' in value || '"' in value) && ('\\' in part ==> HasEscape(part))
  {
    EscapedHasEscape(value);
    var part := key + L.Quoted(Escape(value));
    assert part == (key + "\"") + Escape(value) + "\"";
    if '\\' in Escape(value) { HasEscapeAround(key + "\"", Escape(value), "\""); }
  }

  /** Double quotes and backslashes in the names leave escapes in the format, each two characters long. */
  lemma FormatHasEscape(identifier: string, labelText: string)
    ensures var format := L.PredicateText(identifier, labelText);
      && ('\\' in format <==> exists c :: (c == '\\' || c == '"') && (c in identifier || c in labelText))
      && ('\\' in format ==> HasEscape(format))
  {
    var format := L.PredicateText(identifier, labelText);
    KeyAndValue("identifier == ", identifier);
    KeyAndValue("label == ", labelText);
    var a := if identifier != "" then "identifier == " + L.Quoted(Escape(identifier)) else "";
    var b := if identifier != "" && labelText != "" then " AND " else "";
    var c := if labelText != "" then "label == " + L.Quoted(Escape(labelText)) else "";
    assert format == a + b + c;
    assert format == "" + a + (b + c) && format == (a + b) + c + "";
    if '\\' in a { HasEscapeAround("", a, b + c); }
    if '\\' in c { HasEscapeAround(a + b, c, ""); }
  }

  // ---- The code -----------------------------------------------------------------------------------------------------

  function Code(format: string): string {
    "page.get_by_predicate('" + format + "')"
  }

  lemma DropSpacesBetween(pre: string, c: char, inside: string, post: string)
    requires c != '(' && c != ')' && c != ',' && c != ' ' && ' ' !in pre && ' ' !in post
    ensures DropSpaces(pre + [c] + (inside + [c] + post)) == pre + [c] + (DropSpaces(inside) + [c] + post)
  {
    DropSpacesAround(pre, c, inside + [c] + post);
    DropSpacesAround(inside, c, post);
    NoSpacesToDrop(pre);
    NoSpacesToDrop(post);
  }

  lemma InlinePredicate(format: string)
    ensures Inline(Code(format)) == Code(Shown(format))
  {
    WholeOnOneLine("page.get_by_predicate('", format, "')");
    DropSpacesBetween("page.get_by_predicate(", '\'', Mended(format), ")");
    BetweenQuotes(Mended(format));
    BetweenQuotes(Shown(format));
  }

  lemma BetweenQuotes(inside: string)
    ensures "page.get_by_predicate('" + inside + "')" == "page.get_by_predicate(" + ['\''] + (inside + ['\''] + ")")
  {
    assert "page.get_by_predicate('" == "page.get_by_predicate(" + ['\''];
    assert inside + "')" == inside + ['\''] + ")";
  }

  lemma CodeRegrouped(inside: string)
    ensures "page.get_by_predicate('" + inside + "')" == "page." + FACTORY + "(" + ("'" + (inside + "')"))
  {
    assert "page.get_by_predicate('" == "page." + FACTORY + "(" + "'";
  }

  const FACTORY := "get_by_predicate"

  function ByPredicate(all: seq<Argument>): Option<Selector> {
    if |all| != 1 || all[0].name != "" then None else Some(NO_CRITERIA.(predicateFormat := Some(all[0].value)))
  }

  ghost predicate MakesPredicates(name: string) {
    IsPlain(name) && forall all: seq<Argument> :: Call(name, all) == ByPredicate(all)
  }

  lemma FactoryMakesPredicates()
    ensures MakesPredicates(FACTORY)
  {
  }

  lemma CallByPredicate(name: string, args: string)
    requires MakesPredicates(name)
    ensures ReadAll(args) == NoArguments ==> Evaluate("page." + name + "(" + args) == None
    ensures ReadAll(args).SomeArguments? && Evaluate("page." + name + "(" + args).Some? ==>
      |ReadAll(args).all| == 1 && Evaluate("page." + name + "(" + args).value.predicateFormat == Some(ReadAll(args).all[0].value)
    ensures forall value :: ReadAll(args) == SomeArguments([Argument("", value)], "") ==>
      Evaluate("page." + name + "(" + args) == Some(NO_CRITERIA.(predicateFormat := Some(value)))
  {
    CallIsEvaluated(name, args);
  }

  lemma FirstArgument(args: string)
    requires ReadAll(args).SomeArguments?
    ensures var one := ReadOne(SkipSpaces(args));
      one.AnArgument? && one.rest != "" && ReadAll(args).all[0] == one.argument
  {
  }

  lemma QuotedArgument(inside: string)
    ensures SkipSpaces("'" + inside) == "'" + inside
    ensures ReadOne("'" + inside) ==
      var r := ReadLiteral(inside, '\'');
      if r.Read? then AnArgument(Argument("", r.value), r.rest) else NotAnArgument
  {
    assert ("'" + inside)[0..] == "'" + inside;
    assert ("'" + inside)[1..] == inside;
  }

  predicate Plain(format: string) {
    '\\' !in format && '\'' !in format && forall c <- format :: !EndsLiteral(c)
  }

  lemma PlainArgument(format: string)
    requires Plain(format)
    ensures ReadAll("'" + (format + "')")) == SomeArguments([Argument("", format)], "")
  {
    QuotedArgument(format + "')");
    assert format + "')" == format + ['\''] + ")";
    PlainIsRead(format, '\'', ")");
    assert SkipSpaces(")") == ")";
  }

  lemma PlainPredicate(format: string)
    requires Plain(format)
    ensures Evaluate(Code(format)) == Some(NO_CRITERIA.(predicateFormat := Some(format)))
  {
    CodeRegrouped(format);
    FactoryMakesPredicates();
    CallByPredicate(FACTORY, "'" + (format + "')"));
    PlainArgument(format);
  }

  lemma OnlyWhole(inside: string, format: string, rest: string)
    requires |inside| <= |format| && rest != "" && Shortens(inside + "')", '\'', format, rest)
    ensures inside == format && Verbatim(format, '\'')
  {
    assert (inside + "')")[..|inside|] == inside;
    assert (format + ['\''] + rest)[..|format|] == format;
  }

  /** Code that is no longer than the format it is read as quotes just that format. */
  lemma ReadAsFormat(inside: string, format: string)
    requires |inside| <= |format| && Evaluate(Code(inside)) == Some(NO_CRITERIA.(predicateFormat := Some(format)))
    ensures inside == format && Verbatim(format, '\'')
  {
    var literal := inside + "')";
    CodeRegrouped(inside);
    FactoryMakesPredicates();
    CallByPredicate(FACTORY, "'" + literal);
    FirstArgument("'" + literal);
    QuotedArgument(literal);
    ReadingShortens(literal, '\'');
    OnlyWhole(inside, format, ReadLiteral(literal, '\'').rest);
  }

  /**
   The displayed code of a suggestion by predicate means that predicate if and only if it is shown as
   it is, and holds no apostrophe, no backslash and no NUL.
  */
  lemma PredicateAgrees(identifier: string, labelText: string)
    ensures var format := L.PredicateText(identifier, labelText);
      Evaluate(Inline(Code(format))) == Some(NO_CRITERIA.(predicateFormat := Some(format))) <==>
        ShownAsIs(format) && '\'' !in format && '\\' !in format && '\0' !in format
  {
    var format := L.PredicateText(identifier, labelText);
    InlinePredicate(format);
    ShownShortens(format);
    WhatIsShownAsIs(format);
    FormatHasEscape(identifier, labelText);
    if Evaluate(Code(Shown(format))) == Some(NO_CRITERIA.(predicateFormat := Some(format))) {
      ReadAsFormat(Shown(format), format);
    } else if Plain(format) {
      PlainPredicate(format);
    }
  }
}
