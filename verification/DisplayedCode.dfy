/** The code the Inspector displays and records means the locator it executes. */
module DisplayedCode {
  import opened Wrappers
  import opened ElementTypes
  import opened PythonText
  import opened PythonCode
  import opened PythonReading
  import opened PredicateCode
  import opened Inlining
  import opened Selectors
  import Decimal
  import Hierarchy
  import Snapshot
  import L = Locators

  // ---- Code by one criterion -----------------------------------------------------------------------------

  function Around(pre: string, inside: string, post: string): string {
    pre + "\"" + inside + "\"" + post
  }

  lemma AroundRegrouped(pre: string, inside: string, post: string)
    ensures Around(pre, inside, post) == (pre + "\"") + inside + ("\"" + post)
    ensures Around(pre, inside, post) == pre + "\"" + (inside + "\"" + post)
  {
  }

  lemma OnOneLineAround(pre: string, s: string, post: string)
    requires pre != "" && OneLine(pre) && !IsSpace(pre[0])
    requires OneLine(post) && (post != "" ==> !IsSpace(post[|post| - 1]))
    ensures OnOneLine(Around(pre, s, post)) == Around(pre, Mended(s), post)
  {
    AroundRegrouped(pre, s, post);
    AroundRegrouped(pre, Mended(s), post);
    assert (pre + "\"")[0] == pre[0];
    WholeOnOneLine(pre + "\"", s, "\"" + post);
  }

  lemma DropSpacesInAround(pre: string, s: string, post: string)
    ensures DropSpaces(Around(pre, s, post)) == Around(DropSpaces(pre), DropSpaces(s), DropSpaces(post))
  {
    AroundRegrouped(pre, s, post);
    AroundRegrouped(DropSpaces(pre), DropSpaces(s), DropSpaces(post));
    DropSpacesAround(pre, '"', s + "\"" + post);
    DropSpacesAround(s, '"', post);
  }

  /** A quoted value between code without spaces. */
  lemma InlineQuoted(pre: string, value: string, post: string)
    requires pre != "" && OneLine(pre) && ' ' !in pre && !IsSpace(pre[0])
    requires OneLine(post) && ' ' !in post && (post != "" ==> !IsSpace(post[|post| - 1]))
    ensures Inline(Around(pre, Escape(value), post)) == Around(pre, Escape(Shown(value)), post)
  {
    OnOneLineAround(pre, Escape(value), post);
    MendedEscaped(value);
    DropSpacesInAround(pre, Escape(Mended(value)), post);
    NoSpacesToDrop(pre);
    NoSpacesToDrop(post);
    DropSpacesEscaped(Mended(value));
  }

  lemma LookupIsAround(what: string, value: string)
    ensures L.Lookup(what, value) == Around("page.get_by_" + what + "(", Escape(value), ")")
  {
    InParentheses("page.get_by_" + what, "\"" + Escape(value) + "\"");
  }

  lemma InParentheses(pre: string, quoted: string)
    requires quoted != "" && |quoted| >= 2 && quoted[0] == '"' && quoted[|quoted| - 1] == '"'
    ensures pre + "(" + quoted + ")" == Around(pre + "(", quoted[1..|quoted| - 1], ")")
  {
    assert quoted == "\"" + quoted[1..|quoted| - 1] + "\"";
    AroundRegrouped(pre + "(", quoted[1..|quoted| - 1], ")");
  }

  lemma LookupStart(what: string)
    requires IsPlain(what)
    ensures var pre := "page.get_by_" + what + "("; pre != "" && OneLine(pre) && ' ' !in pre && pre[0] == 'p'
  {
    PlainText(what);
  }

  lemma InlineLookup(what: string, value: string)
    requires IsPlain(what)
    ensures Inline(L.Lookup(what, value)) == L.Lookup(what, Shown(value))
  {
    LookupStart(what);
    LookupIsAround(what, value);
    LookupIsAround(what, Shown(value));
    InlineQuoted("page.get_by_" + what + "(", value, ")");
  }

  lemma EvaluateLookup(what: string, value: string)
    requires IsPlain(what)
    ensures Evaluate(L.Lookup(what, value)) ==
      if Quotable(value) then Call("get_by_" + what, [Argument("", value)]) else None
  {
    var name, args := "get_by_" + what, ArgumentText("", value) + ")" + "";
    LastArgument("", value, "");
    CallIsEvaluated(name, args);
    LookupText(what, Escape(value));
  }

  lemma LookupText(what: string, escaped: string)
    ensures "page.get_by_" + what + "(" + ("\"" + escaped + "\"") + ")" == "page." + ("get_by_" + what) + "(" + ("" + "\"" + escaped + "\"" + ")" + "")
  {
    assert "page.get_by_" == "page." + "get_by_";
  }

  // ---- Code with an index -----------------------------------------------------------------------------------

  function IndexCode(typeName: string, digits: string): string {
    "page.get_by_type(" + L.Quoted(typeName) + ").nth(" + digits + ")"
  }

  lemma IndexIsAround(typeName: string, digits: string)
    ensures IndexCode(typeName, digits) == Around("page.get_by_type(", typeName, ").nth(" + digits + ")")
  {
  }

  lemma InlineIndex(typeName: string, index: nat)
    requires IsPlain(typeName)
    ensures Inline(IndexCode(typeName, Decimal.Print(index))) == IndexCode(typeName, Decimal.Print(index))
  {
    var post := ").nth(" + Decimal.Print(index) + ")";
    PlainText(typeName);
    PlainIsShownAsIs(typeName);
    WhatIsShownAsIs(typeName);
    IndexIsAround(typeName, Decimal.Print(index));
    InlineQuoted("page.get_by_type(", typeName, post);
  }

  lemma PlainIsShownAsIs(name: string)
    requires IsPlain(name)
    ensures ShownAsIs(name)
  {
    PlainText(name);
    forall i | 0 <= i <= |name|
      ensures !("( " <= name[i..]) && !(" )" <= name[i..]) && !(", )" <= name[i..])
    {
      if i < |name| { assert name[i] in name; }
    }
  }

  lemma EvaluateCall(name: string, value: string, rest: string, made: Selector)
    requires IsPlain(name) && Quotable(value) && Call(name, [Argument("", value)]) == Some(made)
    ensures ReadLocator("page." + name + "(" + (ArgumentText("", value) + ")" + rest)) == Refined(made, rest)
  {
    LastArgument("", value, rest);
    CallIsEvaluated(name, ArgumentText("", value) + ")" + rest);
  }

  lemma TypeFactoryMeans(value: string)
    ensures IsPlain("get_by_type") && Call("get_by_type", [Argument("", value)]) == Some(NO_CRITERIA.(elementType := Some(value)))
  {
  }

  lemma EvaluateIndex(typeName: string, index: nat)
    requires IsPlain(typeName)
    ensures Evaluate(IndexCode(typeName, Decimal.Print(index))) == Some(NO_CRITERIA.(elementType := Some(typeName), index := Some(index)))
  {
    PlainText(typeName);
    IndexText(typeName, Decimal.Print(index));
    TypeFactoryMeans(typeName);
    EvaluateCall("get_by_type", typeName, ".nth(" + Decimal.Print(index) + ")", NO_CRITERIA.(elementType := Some(typeName)));
    SuffixIsRead(NO_CRITERIA.(elementType := Some(typeName)), index);
  }

  lemma IndexText(typeName: string, digits: string)
    ensures IndexCode(typeName, digits) ==
      "page." + "get_by_type" + "(" + ("" + "\"" + typeName + "\"" + ")" + (".nth(" + digits + ")"))
  {
    assert "page.get_by_type(" == "page." + "get_by_type" + "(";
    assert ").nth(" == ")" + ".nth(";
  }

  // ---- Code by type and one criterion -----------------------------------------------------------------------

  /** The code by type once it is on one line. */
  function TypedOnOneLine(typeName: string, key: string, value: string): string {
    Around("page.locator(type=", typeName, Around(", " + key + "=", Escape(value), ")"))
  }

  lemma ThreeLines(head: string, first: string, second: string, last: string)
    requires OneLine(head) && Trimmed(head) && head != ""
    requires OneLine(first) && Trimmed(first) && first != ""
    requires OneLine(last) && Trimmed(last) && last != ""
    requires OnOneLine(second) != ""
    ensures OnOneLine(head + "\n" + ("    " + first + "\n" + ("    " + second + "\n" + last))) ==
      head + " " + (first + " " + (OnOneLine(second) + " " + last))
  {
    var inner := "    " + second + "\n" + last;
    LineAppended(head, "    " + first + "\n" + inner);
    LineAppended("    " + first, inner);
    LineAppended("    " + second, last);
    Indented(first);
    Indented(second);
    TrimmedLine(head);
    TrimmedLine(first);
    TrimmedLine(last);
  }

  lemma TypedLookupLines(typeName: string, key: string, value: string)
    ensures L.TypedLookup(typeName, key, value) ==
      "page.locator(" + "\n" + ("    " + ("type=" + L.Quoted(typeName) + ",") + "\n" + ("    " + Around(key + "=", Escape(value), "") + "\n" + ")"))
  {
    TypedText(L.Quoted(typeName), key, L.Quoted(Escape(value)));
    AroundNothing(key, Escape(value));
  }

  lemma AroundNothing(key: string, inside: string)
    ensures Around(key + "=", inside, "") == key + "=" + L.Quoted(inside)
  {
  }

  lemma TypedText(t: string, key: string, v: string)
    ensures "page.locator(\n    type=" + t + ",\n    " + key + "=" + v + "\n)" ==
      "page.locator(" + "\n" + ("    " + ("type=" + t + ",") + "\n" + ("    " + (key + "=" + v) + "\n" + ")"))
  {
    assert "page.locator(\n    type=" == "page.locator(" + "\n" + "    " + "type=";
    assert ",\n    " == "," + "\n" + "    ";
    assert "\n)" == "\n" + ")";
  }

  lemma TypeArgument(typeName: string)
    requires IsPlain(typeName)
    ensures var first := "type=" + L.Quoted(typeName) + ","; OneLine(first) && Trimmed(first) && first != ""
  {
    PlainText(typeName);
  }

  lemma KeyArgument(key: string, value: string)
    requires IsPlain(key) && key != ""
    ensures OnOneLine(Around(key + "=", Escape(value), "")) == Around(key + "=", Escape(Mended(value)), "")
  {
    PlainText(key);
    assert (key + "=")[0] == key[0];
    OnOneLineAround(key + "=", Escape(value), "");
    MendedEscaped(value);
  }

  lemma OnOneLineTyped(typeName: string, key: string, value: string)
    requires IsPlain(typeName) && IsPlain(key) && key != ""
    ensures OnOneLine(L.TypedLookup(typeName, key, value)) ==
      Around("page.locator( type=", typeName, Around(", " + key + "=", Escape(Mended(value)), " )"))
  {
    TypedLookupLines(typeName, key, value);
    TypeArgument(typeName);
    KeyArgument(key, value);
    ThreeLines("page.locator(", "type=" + L.Quoted(typeName) + ",", Around(key + "=", Escape(value), ""), ")");
    LinesRegrouped(typeName, key, Escape(Mended(value)));
  }

  lemma LinesRegrouped(typeName: string, key: string, inside: string)
    ensures "page.locator(" + " " + (("type=" + L.Quoted(typeName) + ",") + " " + (Around(key + "=", inside, "") + " " + ")")) ==
      Around("page.locator( type=", typeName, Around(", " + key + "=", inside, " )"))
  {
    assert "page.locator( type=" == "page.locator(" + " " + "type=";
    assert " )" == " " + ")";
    assert ", " == "," + " ";
  }

  lemma OpeningDropped()
    ensures DropSpaces("page.locator( type=") == "page.locator(type="
  {
    SpaceAfterOpening("page.locator", "type=");
    assert "page.locator( type=" == "page.locator" + "( " + "type=" && "page.locator(type=" == "page.locator" + "(" + "type=";
  }

  lemma KeyKept(key: string)
    requires IsPlain(key)
    ensures DropSpaces(", " + key + "=") == ", " + key + "="
  {
    PlainText(key);
    NoSpacesToDrop(", " + key + "=");
  }

  lemma DropSpacesTyped(typeName: string, key: string, inside: string)
    requires IsPlain(typeName) && IsPlain(key)
    ensures DropSpaces(Around("page.locator( type=", typeName, Around(", " + key + "=", inside, " )"))) ==
      Around("page.locator(type=", typeName, Around(", " + key + "=", DropSpaces(inside), ")"))
  {
    DropSpacesInAround("page.locator( type=", typeName, Around(", " + key + "=", inside, " )"));
    DropSpacesInAround(", " + key + "=", inside, " )");
    PlainText(typeName);
    NoSpacesToDrop(typeName);
    OpeningDropped();
    KeyKept(key);
    SpaceBeforeClosing();
  }

  lemma InlineTyped(typeName: string, key: string, value: string)
    requires IsPlain(typeName) && IsPlain(key) && key != ""
    ensures Inline(L.TypedLookup(typeName, key, value)) == TypedOnOneLine(typeName, key, Shown(value))
  {
    OnOneLineTyped(typeName, key, value);
    DropSpacesTyped(typeName, key, Escape(Mended(value)));
    DropSpacesEscaped(Mended(value));
  }

  lemma ArgumentsRegrouped(t: string, key: string, e: string)
    ensures Around("page.locator(type=", t, Around(", " + key + "=", e, ")")) ==
      "page." + "locator" + "(" + (("type" + "=\"" + t + "\"") + (", " + ((key + "=\"" + e + "\"") + ")" + "")))
  {
    assert "page.locator(type=" == "page." + "locator" + "(" + "type=";
    assert "=\"" == "=" + "\"";
  }

  lemma EvaluateTyped(typeName: string, key: string, value: string)
    requires IsPlain(typeName) && IsPlain(key) && key != ""
    ensures Evaluate(TypedOnOneLine(typeName, key, value)) ==
      if Quotable(value) then Call("locator", [Argument("type", typeName)] + [Argument(key, value)]) else None
  {
    var last := ArgumentText(key, value) + ")" + "";
    PlainText(typeName);
    ArgumentsRegrouped(typeName, key, Escape(value));
    LastArgument(key, value, "");
    assert last[0] == key[0] && key[0] in key;
    OneMoreArgument("type", typeName, last);
    CallIsEvaluated("locator", ArgumentText("type", typeName) + (", " + last));
  }

  // ---- Every suggestion ----------------------------------------------------------------------------------------

  /** The value a suggestion's code quotes, besides the type. */
  function QuotedValue(s: Selector): string {
    if s.identifier.Some? then s.identifier.value
    else if s.labelText.Some? then s.labelText.value
    else if s.text.Some? then s.text.value
    else if s.predicateFormat.Some? then s.predicateFormat.value
    else ""
  }

  /** The same selector for another value. */
  function WithValue(s: Selector, value: string): Selector {
    if s.identifier.Some? then s.(identifier := Some(value))
    else if s.labelText.Some? then s.(labelText := Some(value))
    else if s.text.Some? then s.(text := Some(value))
    else if s.predicateFormat.Some? then s.(predicateFormat := Some(value))
    else s
  }

  predicate Means(code: string, made: Selector) {
    var shown := Shown(QuotedValue(made));
    Evaluate(Inline(code)) == if Quotable(shown) then Some(WithValue(made, shown)) else None
  }

  predicate CodeMeans(s: L.Suggestion) {
    if s.strategy.Predicate? then
      var shown := Shown(QuotedValue(L.Build(s)));
      Plain(shown) ==> Evaluate(Inline(s.code)) == Some(WithValue(L.Build(s), shown))
    else Means(s.code, L.Build(s))
  }

  lemma IdFactoryMeans(value: string)
    ensures IsPlain("id") && Call("get_by_" + "id", [Argument("", value)]) == Some(NO_CRITERIA.(identifier := Some(value)))
  {
    assert "get_by_" + "id" == "get_by_id";
  }

  lemma LabelFactoryMeans(value: string)
    ensures IsPlain("label") && Call("get_by_" + "label", [Argument("", value)]) == Some(NO_CRITERIA.(labelText := Some(value)))
  {
    assert "get_by_" + "label" == "get_by_label";
  }

  lemma TextFactoryMeans(value: string)
    ensures IsPlain("text") && Call("get_by_" + "text", [Argument("", value)]) == Some(NO_CRITERIA.(text := Some(value)))
  {
    assert "get_by_" + "text" == "get_by_text";
  }

  lemma LookupMeans(what: string, value: string, made: Selector)
    requires IsPlain(what) && QuotedValue(made) == value
    requires Call("get_by_" + what, [Argument("", Shown(value))]) == Some(WithValue(made, Shown(value)))
    ensures Means(L.Lookup(what, value), made)
  {
    InlineLookup(what, value);
    EvaluateLookup(what, Shown(value));
  }

  lemma IdMeans(value: string)
    ensures Means(L.Lookup("id", value), NO_CRITERIA.(identifier := Some(value)))
  {
    IdFactoryMeans(Shown(value));
    LookupMeans("id", value, NO_CRITERIA.(identifier := Some(value)));
  }

  lemma LabelMeans(value: string)
    ensures Means(L.Lookup("label", value), NO_CRITERIA.(labelText := Some(value)))
  {
    LabelFactoryMeans(Shown(value));
    LookupMeans("label", value, NO_CRITERIA.(labelText := Some(value)));
  }

  lemma TextMeans(value: string)
    ensures Means(L.Lookup("text", value), NO_CRITERIA.(text := Some(value)))
  {
    TextFactoryMeans(Shown(value));
    LookupMeans("text", value, NO_CRITERIA.(text := Some(value)));
  }

  lemma KeywordsMean(typeName: string, value: string)
    ensures Call("locator", [Argument("type", typeName)] + [Argument("identifier", value)]) ==
      Some(NO_CRITERIA.(elementType := Some(typeName), identifier := Some(value)))
    ensures Call("locator", [Argument("type", typeName)] + [Argument("label", value)]) ==
      Some(NO_CRITERIA.(elementType := Some(typeName), labelText := Some(value)))
  {
    TwoKeywords(Argument("type", typeName), Argument("identifier", value), NO_CRITERIA.(elementType := Some(typeName)));
    TwoKeywords(Argument("type", typeName), Argument("label", value), NO_CRITERIA.(elementType := Some(typeName)));
  }

  lemma TwoKeywords(first: Argument, second: Argument, between: Selector)
    requires WithKeyword(NO_CRITERIA, first) == Some(between)
    ensures Call("locator", [first] + [second]) == WithKeyword(between, second)
  {
    var all := [first] + [second];
    assert all[1..] == [second];
    assert [second][1..] == [];
    assert WithKeywords(NO_CRITERIA, all) == WithKeywords(between, [second]);
  }

  lemma TypedMeans(typeName: string, key: string, value: string, made: Selector)
    requires IsPlain(typeName) && IsPlain(key) && key != "" && QuotedValue(made) == value
    requires Call("locator", [Argument("type", typeName)] + [Argument(key, Shown(value))]) == Some(WithValue(made, Shown(value)))
    ensures Means(L.TypedLookup(typeName, key, value), made)
  {
    InlineTyped(typeName, key, value);
    EvaluateTyped(typeName, key, Shown(value));
  }

  lemma TypedIdMeans(typeName: string, value: string)
    requires IsPlain(typeName)
    ensures Means(L.TypedLookup(typeName, "identifier", value), NO_CRITERIA.(elementType := Some(typeName), identifier := Some(value)))
  {
    KeywordsMean(typeName, Shown(value));
    TypedMeans(typeName, "identifier", value, NO_CRITERIA.(elementType := Some(typeName), identifier := Some(value)));
  }

  lemma TypedLabelMeans(typeName: string, value: string)
    requires IsPlain(typeName)
    ensures Means(L.TypedLookup(typeName, "label", value), NO_CRITERIA.(elementType := Some(typeName), labelText := Some(value)))
  {
    KeywordsMean(typeName, Shown(value));
    TypedMeans(typeName, "label", value, NO_CRITERIA.(elementType := Some(typeName), labelText := Some(value)));
  }

  lemma IdShape(root: Snapshot.Node, identifier: string, typeName: string, s: L.Suggestion)
    requires s in L.ById(root, identifier, typeName)
    ensures s.index.None?
    ensures (s.code == L.Lookup("id", identifier) && s.criteria == NO_CRITERIA.(identifier := Some(identifier)))
      || (s.code == L.TypedLookup(typeName, "identifier", identifier)
          && s.criteria == NO_CRITERIA.(elementType := Some(typeName), identifier := Some(identifier)))
  {
  }

  lemma LabelShape(root: Snapshot.Node, labelText: string, typeName: string, s: L.Suggestion)
    requires s in L.ByLabel(root, labelText, typeName)
    ensures s.index.None?
    ensures (s.code == L.Lookup("label", labelText) && s.criteria == NO_CRITERIA.(labelText := Some(labelText)))
      || (s.code == L.TypedLookup(typeName, "label", labelText)
          && s.criteria == NO_CRITERIA.(elementType := Some(typeName), labelText := Some(labelText)))
  {
  }

  lemma CodeById(root: Snapshot.Node, identifier: string, typeName: string, s: L.Suggestion)
    requires s in L.ById(root, identifier, typeName) && IsPlain(typeName)
    ensures CodeMeans(s)
  {
    IdShape(root, identifier, typeName, s);
    IdMeans(identifier);
    TypedIdMeans(typeName, identifier);
  }

  lemma CodeByLabel(root: Snapshot.Node, labelText: string, typeName: string, s: L.Suggestion)
    requires s in L.ByLabel(root, labelText, typeName) && IsPlain(typeName)
    ensures CodeMeans(s)
  {
    LabelShape(root, labelText, typeName, s);
    LabelMeans(labelText);
    TypedLabelMeans(typeName, labelText);
  }

  lemma CodeByText(root: Snapshot.Node, value: Snapshot.Value, s: L.Suggestion)
    requires s in L.ByText(root, value)
    ensures CodeMeans(s)
  {
    TextMeans(value.text);
  }

  lemma CodeByIndex(root: Snapshot.Node, element: Snapshot.Node, s: L.Suggestion)
    requires s in L.ByIndex(root, element) && IsPlain(element.typeName)
    ensures CodeMeans(s)
  {
    InlineIndex(element.typeName, s.index.value);
    EvaluateIndex(element.typeName, s.index.value);
    PlainIsShownAsIs("");
    WhatIsShownAsIs("");
  }

  lemma PredicateShape(identifier: string, labelText: string, s: L.Suggestion)
    requires s in L.ByPredicate(identifier, labelText)
    ensures var format := L.PredicateText(identifier, labelText);
      s.strategy.Predicate? && s.code == Code(format) && L.Build(s) == NO_CRITERIA.(predicateFormat := Some(format))
  {
  }

  lemma CodeByPredicate(identifier: string, labelText: string, s: L.Suggestion)
    requires s in L.ByPredicate(identifier, labelText)
    ensures CodeMeans(s)
  {
    var format := L.PredicateText(identifier, labelText);
    PredicateShape(identifier, labelText, s);
    InlinePredicate(format);
    if Plain(Shown(format)) { PlainPredicate(Shown(format)); }
  }

  /**
   What displayed code says: it reads as a locator with the criteria and the index the suggestion is
   executed with, the quoted value as shown; for a suggestion by predicate, if what is shown holds no
   apostrophe and no backslash.
  */
  lemma CodeMeansAsShown(element: Snapshot.Node, root: Snapshot.Node, s: L.Suggestion)
    requires s in L.Candidates(element, root) && IsPlain(element.typeName)
    ensures CodeMeans(s)
  {
    var identifier, labelText := Strip(element.identifier), Strip(element.labelText);
    L.FromItsOwnRule(element, root, s);
    if s in L.ById(root, identifier, element.typeName) {
      CodeById(root, identifier, element.typeName, s);
    } else if s in L.ByLabel(root, labelText, element.typeName) {
      CodeByLabel(root, labelText, element.typeName, s);
    } else if s in L.ByText(root, element.value) {
      CodeByText(root, element.value, s);
    } else if s in L.ByIndex(root, element) {
      CodeByIndex(root, element, s);
    } else {
      CodeByPredicate(identifier, labelText, s);
    }
  }

  /**
   The value a suggestion quotes has no line break, no NUL, and none of the spaces that `inline` drops,
   "( ", " )" and ", )". Quotes and backslashes do no harm, but in a predicate.
  */
  predicate Survives(s: L.Suggestion) {
    var value := QuotedValue(L.Build(s));
    ShownAsIs(value) && '\0' !in value && (s.strategy.Predicate? ==> '\'' !in value && '\\' !in value)
  }

  lemma NotByPredicate(element: Snapshot.Node, root: Snapshot.Node, s: L.Suggestion)
    requires s in L.Candidates(element, root)
    ensures s.strategy.Predicate? <==> s in L.ByPredicate(Strip(element.identifier), Strip(element.labelText))
    ensures s.strategy.Predicate? <==> L.Build(s).predicateFormat.Some?
  {
    L.FromItsOwnRule(element, root, s);
  }

  /** For any node with a plain type name. */
  lemma AgreesForPlainTypes(element: Snapshot.Node, root: Snapshot.Node, s: L.Suggestion)
    requires s in L.Candidates(element, root) && IsPlain(element.typeName)
    ensures Evaluate(Inline(s.code)) == Some(L.Build(s)) <==> Survives(s)
  {
    var identifier, labelText := Strip(element.identifier), Strip(element.labelText);
    NotByPredicate(element, root, s);
    if s.strategy.Predicate? {
      PredicateShape(identifier, labelText, s);
      PredicateAgrees(identifier, labelText);
    } else {
      CodeMeansAsShown(element, root, s);
      ShownSurvives(s.code, L.Build(s));
    }
  }

  lemma ShownSurvives(code: string, made: Selector)
    requires Means(code, made) && made.predicateFormat.None?
    ensures var value := QuotedValue(made); Evaluate(Inline(code)) == Some(made) <==> ShownAsIs(value) && '\0' !in value
  {
    var value := QuotedValue(made);
    WhatIsShownAsIs(value);
    ShownIsOneLine(value);
    QuotableLine(Shown(value));
    SameForItsValue(made, Shown(value));
    PlainIsShownAsIs("");
    WhatIsShownAsIs("");
  }

  lemma QuotableLine(s: string)
    requires OneLine(s)
    ensures Quotable(s) <==> '\0' !in s
  {
  }

  lemma SameForItsValue(made: Selector, value: string)
    ensures WithValue(made, value) == made <==> value == QuotedValue(made) || QuotedNothing(made)
    ensures QuotedNothing(made) ==> QuotedValue(made) == ""
  {
  }

  predicate QuotedNothing(s: Selector) {
    s.identifier.None? && s.labelText.None? && s.text.None? && s.predicateFormat.None?
  }

  lemma EarlyKeysArePlain(t: ElementType)
    requires !t.Unlisted? && Position(t) < 12
    ensures IsPlain(TableKey(t))
  {
  }

  lemma MiddleKeysArePlain(t: ElementType)
    requires !t.Unlisted? && 12 <= Position(t) < 24
    ensures IsPlain(TableKey(t))
  {
  }

  lemma LateKeysArePlain(t: ElementType)
    requires !t.Unlisted? && 24 <= Position(t)
    ensures IsPlain(TableKey(t))
  {
  }

  lemma PrefixedIsPlain(key: string)
    requires IsPlain(key) && key != "" && 'a' <= key[0] <= 'z'
    ensures IsPlain(PREFIX + [Upper(key[0])] + key[1..])
  {
    assert forall c <- key[1..] :: c in key;
    assert IsPlain(PREFIX) && IsNameChar(Upper(key[0]));
  }

  /** The type names the agent sends are plain. */
  lemma TypeNamesArePlain(t: ElementType)
    ensures IsPlain(NameFor(t))
  {
    var u := if t.Unlisted? then Other else t;
    if t.Unlisted? { UnlistedPassesForOther(t); }
    KeyFingerprint(u);
    if Position(u) < 12 { EarlyKeysArePlain(u); } else if Position(u) < 24 { MiddleKeysArePlain(u); } else { LateKeysArePlain(u); }
    PrefixedIsPlain(TableKey(u));
  }

  /** Displayed and executed locators agree, for every node of every snapshot and every suggestion, if and only if it survives. */
  lemma DisplayedIsExecuted(app: Snapshot.Element, o: Snapshot.Options, tree: Snapshot.Node, n: Snapshot.Node, s: L.Suggestion)
    requires Snapshot.Serialize(app, o) == Some(tree) && n in Snapshot.IterNodes(tree)
    requires s in L.Candidates(n, tree)
    ensures Evaluate(Inline(s.code)) == Some(L.Build(s)) <==> Survives(s)
  {
    Hierarchy.WalkDescribesKept(app, o, tree);
    var k :| 0 <= k < |Snapshot.IterNodes(tree)| && Snapshot.IterNodes(tree)[k] == n;
    var a := Hierarchy.KeptAmong(app, Snapshot.Preorder(app), 0, o)[k];
    assert Snapshot.Flat(n).typeName == n.typeName;
    TypeNamesArePlain(Snapshot.At(app, a).value.elementType);
    AgreesForPlainTypes(n, tree, s);
  }

  // ---- Code that means something else ---------------------------------------------------------------------------

  lemma OneSpaceLess()
    ensures Shown("a ( b") == "a (b"
  {
    var s := "a ( b";
    assert s == "a " + "( " + "b" && "a (b" == "a " + "(" + "b";
    ReplaceFirst("a ", "( ", "(", "b");
    ReplaceAbsent("b", "( ", "(", ' ');
    ReplaceAbsent("a (b", " )", ")", ')');
    ReplaceAbsent("a (b", ", )", ")", ')');
  }

  lemma LabelAsShown(element: Snapshot.Node, root: Snapshot.Node, labelText: string) returns (s: L.Suggestion)
    requires Strip(element.labelText) == labelText && labelText != "" && Quotable(Shown(labelText))
    ensures s in L.Candidates(element, root) && L.Build(s) == NO_CRITERIA.(labelText := Some(labelText))
    ensures Evaluate(Inline(s.code)) == Some(NO_CRITERIA.(labelText := Some(Shown(labelText))))
  {
    s := L.ByLabel(root, labelText, element.typeName)[0];
    L.FromItsOwnRule(element, root, s);
    LabelMeans(labelText);
  }

  /** For the label `a ( b` the locator displayed asks for `a (b`, and the one executed does not. */
  lemma SpaceIsLost(element: Snapshot.Node, root: Snapshot.Node) returns (s: L.Suggestion)
    requires Strip(element.labelText) == "a ( b"
    ensures s in L.Candidates(element, root) && L.Build(s) == NO_CRITERIA.(labelText := Some("a ( b"))
    ensures Evaluate(Inline(s.code)) == Some(NO_CRITERIA.(labelText := Some("a (b")))
  {
    OneSpaceLess();
    s := LabelAsShown(element, root, "a ( b");
  }

  /** Where the identifier or the label holds a double quote or a backslash, the predicate displayed is not the one executed. */
  lemma QuoteSpoilsThePredicate(element: Snapshot.Node, root: Snapshot.Node, s: L.Suggestion, c: char)
    requires s in L.Candidates(element, root) && s.strategy.Predicate? && (c == '"' || c == '\\')
    requires c in Strip(element.identifier) || c in Strip(element.labelText)
    ensures Evaluate(Inline(s.code)) != Some(L.Build(s))
  {
    var identifier, labelText := Strip(element.identifier), Strip(element.labelText);
    NotByPredicate(element, root, s);
    PredicateShape(identifier, labelText, s);
    PredicateAgrees(identifier, labelText);
    FormatHasEscape(identifier, labelText);
  }
}
