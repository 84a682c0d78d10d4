/** How code that quotes a text is read. */
module PythonReading {
  import opened Wrappers
  import opened PythonText
  import opened PythonCode
  import opened Inlining
  import opened Selectors
  import Decimal

  // ---- Literals ----------------------------------------------------------------------------------------

  predicate Quotable(value: string) {
    forall c <- value :: !EndsLiteral(c)
  }

  /** An escaped value ends exactly at the closing quote, and says the value. */
  lemma {:induction false} EscapedIsRead(value: string, rest: string)
    ensures ReadLiteral(Escape(value) + "\"" + rest, '"') == if Quotable(value) then Read(value, rest) else NotRead
    decreases |value|
  {
    var s := Escape(value) + "\"" + rest;
    if value == "" {
      assert s == "\"" + rest;
    } else {
      var c, others := value[0], value[1..];
      assert value == [c] + others;
      EscapeFirst(c, others);
      EscapedIsRead(others, rest);
      var more := Escape(others) + "\"" + rest;
      assert s == EscapedChar(c) + more;
      OneCharacter(c, more);
      assert Quotable(value) <==> !EndsLiteral(c) && Quotable(others);
    }
  }

  lemma OneCharacter(c: char, more: string)
    ensures ReadLiteral(EscapedChar(c) + more, '"') == if EndsLiteral(c) then NotRead else Prepend([c], ReadLiteral(more, '"'))
  {
    var s := EscapedChar(c) + more;
    if c == '\\' || c == '"' {
      assert s[0] == '\\' && s[1] == c && s[2..] == more;
    } else {
      assert s[0] == c && s[1..] == more;
    }
  }

  // ---- Calls ------------------------------------------------------------------------------------------------

  predicate IsPlain(name: string) {
    forall c <- name :: IsNameChar(c)
  }

  lemma {:induction false} NameEnds(name: string, rest: string)
    requires IsPlain(name) && rest != "" && !IsNameChar(rest[0])
    ensures NameLength(name + rest) == |name|
    decreases |name|
  {
    var s := name + rest;
    if name != "" {
      assert s[0] == name[0] && name[0] in name && s[1..] == name[1..] + rest;
      NameEnds(name[1..], rest);
    }
  }

  lemma PlainText(name: string)
    requires IsPlain(name)
    ensures OneLine(name) && Trimmed(name)
    ensures ' ' !in name && '"' !in name && '\\' !in name && '(' !in name && ')' !in name
    ensures Escape(name) == name && Quotable(name)
  {
    if name != "" { assert name[0] in name && name[|name| - 1] in name; }
    EscapePlain(name);
  }

  function ArgumentText(name: string, value: string): string {
    name + (if name == "" then "\"" else "=\"") + Escape(value) + "\""
  }

  /** A name, if any, and a literal after it. */
  lemma NameIsRead(name: string, after: string)
    requires IsPlain(name) && after != "" && !IsNameChar(after[0])
    ensures ReadOne(name + after) ==
      var literal := if name == "" then after else if after[0] == '=' then after[1..] else "";
      if literal == "" || !IsQuote(literal[0]) then NotAnArgument
      else
        var r := ReadLiteral(literal[1..], literal[0]);
        if r.Read? then AnArgument(Argument(name, r.value), r.rest) else NotAnArgument
  {
    NameEnds(name, after);
    assert (name + after)[..|name|] == name && (name + after)[|name|..] == after;
  }

  lemma Regrouped(name: string, open_: string, inside: string, close: string, rest: string)
    ensures name + open_ + inside + close + rest == name + (open_ + (inside + close + rest))
  {
  }

  lemma ArgumentIsRead(name: string, value: string, rest: string)
    requires IsPlain(name)
    ensures ReadOne(ArgumentText(name, value) + rest) ==
      if Quotable(value) then AnArgument(Argument(name, value), rest) else NotAnArgument
  {
    var open_ := if name == "" then "\"" else "=\"";
    var inside := Escape(value) + "\"" + rest;
    Regrouped(name, open_, Escape(value), "\"", rest);
    NameIsRead(name, open_ + inside);
    LiteralAfter(open_, inside);
    EscapedIsRead(value, rest);
  }

  lemma LiteralAfter(open_: string, inside: string)
    requires open_ == "\"" || open_ == "=\""
    ensures open_ == "\"" ==> (open_ + inside)[0] == '"' && (open_ + inside)[1..] == inside
    ensures open_ == "=\"" ==> (open_ + inside)[0] == '=' && (open_ + inside)[1..] == "\"" + inside && ("\"" + inside)[1..] == inside
  {
  }

  lemma LastArgument(name: string, value: string, rest: string)
    requires IsPlain(name)
    ensures ReadAll(ArgumentText(name, value) + ")" + rest) ==
      if Quotable(value) then SomeArguments([Argument(name, value)], rest) else NoArguments
  {
    var s := ArgumentText(name, value) + (")" + rest);
    assert s == ArgumentText(name, value) + ")" + rest;
    assert SkipSpaces(s) == s by { if name != "" { assert s[0] == name[0] && name[0] in name; } }
    ArgumentIsRead(name, value, ")" + rest);
    assert (")" + rest)[1..] == rest;
  }

  lemma AfterComma(s: string, argument: Argument, more: string)
    requires SkipSpaces(s) == s && ReadOne(s) == AnArgument(argument, ", " + more)
    requires more != "" && more[0] != ')' && more[0] != ' '
    ensures ReadAll(s) ==
      if ReadAll(more).SomeArguments? then SomeArguments([argument] + ReadAll(more).all, ReadAll(more).rest) else NoArguments
  {
    var after := ", " + more;
    assert after[1..] == " " + more;
    assert (" " + more)[1..] == more;
    assert SkipSpaces(" " + more) == more;
  }

  lemma OneMoreArgument(name: string, value: string, more: string)
    requires IsPlain(name) && more != "" && more[0] != ')' && more[0] != ' '
    ensures ReadAll(ArgumentText(name, value) + (", " + more)) ==
      if Quotable(value) && ReadAll(more).SomeArguments?
      then SomeArguments([Argument(name, value)] + ReadAll(more).all, ReadAll(more).rest) else NoArguments
  {
    var s := ArgumentText(name, value) + (", " + more);
    assert SkipSpaces(s) == s by { if name != "" { assert s[0] == name[0] && name[0] in name; } }
    ArgumentIsRead(name, value, ", " + more);
    if Quotable(value) { AfterComma(s, Argument(name, value), more); }
  }

  lemma CallIsEvaluated(name: string, args: string)
    requires IsPlain(name)
    ensures ReadLocator("page." + name + "(" + args) ==
      match ReadAll(args)
      case NoArguments => NotLocated
      case SomeArguments(all, rest) =>
        if Call(name, all).Some? then Refined(Call(name, all).value, rest) else NotLocated
  {
    var code := "page." + name + "(" + args;
    assert code[5..] == name + ("(" + args);
    NameEnds(name, "(" + args);
    assert (name + ("(" + args))[..|name|] == name && (name + ("(" + args))[|name|..] == "(" + args;
    assert ("(" + args)[1..] == args;
  }

  lemma SuffixIsRead(s: Selector, index: nat)
    ensures Refined(s, ".nth(" + Decimal.Print(index) + ")") == Located(s.(index := Some(index)), "")
  {
    var digits := Decimal.Print(index);
    var suffix := ".nth(" + digits + ")";
    assert suffix[5..] == digits + ")";
    DigitsEnd(digits, ")");
    assert (digits + ")")[..|digits|] == digits && (digits + ")")[|digits|..] == ")";
    Decimal.ValueOfPrint(index);
  }

  lemma {:induction false} DigitsEnd(digits: string, rest: string)
    requires Decimal.AllDigits(digits) && (rest == "" || !Decimal.IsDigit(rest[0]))
    ensures DigitLength(digits + rest) == |digits|
    decreases |digits|
  {
    var s := digits + rest;
    if digits != "" {
      assert s[0] == digits[0] && s[1..] == digits[1..] + rest;
      DigitsEnd(digits[1..], rest);
    }
  }
}
