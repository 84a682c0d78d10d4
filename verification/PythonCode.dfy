/**
 Reading a locator expression as Python: calls on `page`, string literals as in section 2.4.1 of the
 Python Language Reference, and what the page's factories make of the arguments.
*/
module PythonCode {
  import opened Wrappers
  import opened Selectors
  import Decimal

  // ---- String literals -------------------------------------------------------------------------------

  /** Characters that no literal on one line holds. */
  predicate EndsLiteral(c: char) {
    c == '\n' || c == '\r' || c == '\0'
  }

  /** The character a backslash makes of the next. Numbered and named characters are not read here. */
  function Unescaped(c: char): Option<string> {
    if c == '\\' || c == '"' || c == '\'' then Some([c])
    else if c == '\n' then Some("")
    else if c == 'a' then Some([7 as char])
    else if c == 'b' then Some([8 as char])
    else if c == 't' then Some([9 as char])
    else if c == 'n' then Some([10 as char])
    else if c == 'v' then Some([11 as char])
    else if c == 'f' then Some([12 as char])
    else if c == 'r' then Some([13 as char])
    else if '0' <= c <= '7' || c == 'x' || c == 'N' || c == 'u' || c == 'U' || c == '\r' || c == '\0' then None
    else Some(['\\', c])
  }

  datatype Reading = NotRead | Read(value: string, rest: string)

  function Prepend(front: string, r: Reading): Reading {
    if r.Read? then Read(front + r.value, r.rest) else NotRead
  }

  predicate IsQuote(c: char) {
    c == '"' || c == '\''
  }

  /** What a literal says, read after its opening quote, and what follows it. */
  function ReadLiteral(s: string, quote: char): (r: Reading)
    requires IsQuote(quote)
    ensures r.Read? ==> |r.rest| < |s|
    decreases |s|
  {
    if s == "" || EndsLiteral(s[0]) then NotRead
    else if s[0] == quote then Read("", s[1..])
    else if s[0] != '\\' then Prepend([s[0]], ReadLiteral(s[1..], quote))
    else if |s| == 1 || Unescaped(s[1]).None? then NotRead
    else Prepend(Unescaped(s[1]).value, ReadLiteral(s[2..], quote))
  }

  // ---- Expressions -------------------------------------------------------------------------------------

  predicate IsNameChar(c: char) {
    'a' <= c <= 'z' || 'A' <= c <= 'Z' || '0' <= c <= '9' || c == '_'
  }

  function NameLength(s: string): (n: nat)
    ensures n <= |s|
  {
    if s != "" && IsNameChar(s[0]) then 1 + NameLength(s[1..]) else 0
  }

  function SkipSpaces(s: string): (r: string)
    ensures |r| <= |s|
  {
    if s != "" && s[0] == ' ' then SkipSpaces(s[1..]) else s
  }

  /** An argument by position has no name. */
  datatype Argument = Argument(name: string, value: string)

  datatype Arguments = NoArguments | SomeArguments(all: seq<Argument>, rest: string)

  datatype ReadArgument = NotAnArgument | AnArgument(argument: Argument, rest: string)

  function ReadOne(s: string): (r: ReadArgument)
    ensures r.AnArgument? ==> |r.rest| < |s|
  {
    var n := NameLength(s);
    var name, after := s[..n], s[n..];
    var literal := if n == 0 then after else if after != "" && after[0] == '=' then after[1..] else "";
    if literal == "" || !IsQuote(literal[0]) then NotAnArgument
    else
      var r := ReadLiteral(literal[1..], literal[0]);
      if r.Read? then AnArgument(Argument(name, r.value), r.rest) else NotAnArgument
  }

  /** Arguments up to the closing parenthesis; a comma may stand before it. */
  function ReadAll(s: string): Arguments
    decreases |s|
  {
    var one := ReadOne(SkipSpaces(s));
    if one.NotAnArgument? then NoArguments
    else
      var after := SkipSpaces(one.rest);
      if after != "" && after[0] == ')' then SomeArguments([one.argument], after[1..])
      else if after != "" && after[0] == ',' then
        var next := SkipSpaces(after[1..]);
        if next != "" && next[0] == ')' then SomeArguments([one.argument], next[1..])
        else
          var others := ReadAll(next);
          if others.SomeArguments? then SomeArguments([one.argument] + others.all, others.rest) else NoArguments
      else NoArguments
  }

  // ---- What the page makes of a call ---------------------------------------------------------------------

  function WithKeyword(s: Selector, a: Argument): Option<Selector> {
    match a.name
    case "type" => Some(s.(elementType := Some(a.value)))
    case "identifier" => Some(s.(identifier := Some(a.value)))
    case "label" => Some(s.(labelText := Some(a.value)))
    case "text" => Some(s.(text := Some(a.value)))
    case "value" => Some(s.(value := Some(a.value)))
    case "predicate" => Some(s.(predicateFormat := Some(a.value)))
    case _ => None
  }

  function WithKeywords(s: Selector, all: seq<Argument>): Option<Selector>
    decreases |all|
  {
    if all == [] then Some(s)
    else
      var next := WithKeyword(s, all[0]);
      if next.Some? then WithKeywords(next.value, all[1..]) else None
  }

  /** The page's factories: those by one criterion, and `locator`. */
  function Call(name: string, all: seq<Argument>): Option<Selector> {
    if name == "locator" then WithKeywords(NO_CRITERIA, all)
    else if |all| != 1 || all[0].name != "" then None
    else if name == "get_by_id" || name == "get_by_accessibility_id" then Some(NO_CRITERIA.(identifier := Some(all[0].value)))
    else if name == "get_by_label" then Some(NO_CRITERIA.(labelText := Some(all[0].value)))
    else if name == "get_by_text" then Some(NO_CRITERIA.(text := Some(all[0].value)))
    else if name == "get_by_type" then Some(NO_CRITERIA.(elementType := Some(all[0].value)))
    else if name == "get_by_predicate" then Some(NO_CRITERIA.(predicateFormat := Some(all[0].value)))
    else None
  }

  datatype Located = NotLocated | Located(selector: Selector, rest: string)

  function DigitLength(s: string): (n: nat)
    ensures n <= |s| && Decimal.AllDigits(s[..n])
  {
    if s != "" && Decimal.IsDigit(s[0]) then
      assert forall n: nat :: n < |s| ==> s[..n + 1] == [s[0]] + s[1..][..n];
      1 + DigitLength(s[1..])
    else 0
  }

  /** `.nth(i)`, or nothing, after a locator. */
  function Refined(s: Selector, rest: string): Located {
    if !(".nth(" <= rest) then Located(s, rest)
    else
      var n := DigitLength(rest[5..]);
      var digits, after := rest[5..][..n], rest[5..][n..];
      if n == 0 || after == "" || after[0] != ')' then NotLocated
      else Located(s.(index := Some(Decimal.Value(digits))), after[1..])
  }

  /** The selector that a locator expression stands for, and what follows it. */
  function ReadLocator(code: string): Located {
    if !("page." <= code) then NotLocated
    else
      var n := NameLength(code[5..]);
      var name, after := code[5..][..n], code[5..][n..];
      if after == "" || after[0] != '(' then NotLocated
      else
        match ReadAll(after[1..])
        case NoArguments => NotLocated
        case SomeArguments(all, rest) =>
          var made := Call(name, all);
          if made.Some? then Refined(made.value, rest) else NotLocated
  }

  function Evaluate(code: string): Option<Selector> {
    var r := ReadLocator(code);
    if r.Located? && r.rest == "" then Some(r.selector) else None
  }

  // ---- Statements --------------------------------------------------------------------------------------------

  datatype Action = Tap | Clear | Fill(text: string)

  datatype Statement = Statement(target: Selector, action: Action)

  function ReadAction(s: string): Option<Action> {
    if s == ".tap()" then Some(Tap)
    else if s == ".clear()" then Some(Clear)
    else if !(".fill(" <= s) then None
    else
      var one := ReadOne(s[6..]);
      if one.AnArgument? && one.argument.name == "" && one.rest == ")" then Some(Fill(one.argument.value)) else None
  }

  /** A locator with an action on it. */
  function ReadStatement(code: string): Option<Statement> {
    var r := ReadLocator(code);
    if r.NotLocated? then None
    else
      var action := ReadAction(r.rest);
      if action.Some? then Some(Statement(r.selector, action.value)) else None
  }
}
