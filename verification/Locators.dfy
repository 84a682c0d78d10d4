/** The Inspector's locator suggestions: how they are found, ranked and built. */
module Locators {
  import opened Wrappers
  import opened Snapshot
  import opened Selectors
  import opened PythonText
  import Decimal

  datatype Strategy = AccessibilityId | IdentifierAndType | Index | Label | Predicate | Text_ | TypeAndLabel

  function Name(s: Strategy): string {
    match s
    case AccessibilityId => "Accessibility ID"
    case IdentifierAndType => "Identifier + type"
    case Index => "Index"
    case Label => "Label"
    case Predicate => "Predicate"
    case Text_ => "Text"
    case TypeAndLabel => "Type + label"
  }

  function Alphabetical(s: Strategy): nat {
    match s
    case AccessibilityId => 0
    case IdentifierAndType => 1
    case Index => 2
    case Label => 3
    case Predicate => 4
    case Text_ => 5
    case TypeAndLabel => 6
  }

  datatype Suggestion = Suggestion(
    strategy: Strategy, score: nat, unique: bool, code: string, criteria: Selector, index: Option<nat>)

  const MAX_SCORE := 5

  /** `page.locator(**criteria)`, and `.nth(index)` when there is an index. */
  function Build(s: Suggestion): Selector {
    if s.index.Some? then s.criteria.(index := Some(s.index.value)) else s.criteria
  }

  // ---- Counting -----------------------------------------------------------------------------------------

  /** The attributes a count compares. */
  datatype Wanted = Wanted(identifier: Option<string>, labelText: Option<string>, typeName: Option<string>, value: Option<string>)

  const ANYTHING := Wanted(None, None, None, None)

  predicate Is(n: Node, w: Wanted) {
    && (w.identifier.Some? ==> n.identifier == w.identifier.value)
    && (w.labelText.Some? ==> n.labelText == w.labelText.value)
    && (w.typeName.Some? ==> n.typeName == w.typeName.value)
    && (w.value.Some? ==> n.value == Text(w.value.value))
  }

  function Count(nodes: seq<Node>, w: Wanted): nat {
    if nodes == [] then 0 else Count(nodes[..|nodes| - 1], w) + (if Is(nodes[|nodes| - 1], w) then 1 else 0)
  }

  predicate Only(root: Node, w: Wanted) {
    Count(IterNodes(root), w) == 1
  }

  /** The node has all that is wanted. */
  predicate HasAll(n: Node, w: Wanted) {
    && (w.identifier == None || w.identifier == Some(n.identifier))
    && (w.labelText == None || w.labelText == Some(n.labelText))
    && (w.typeName == None || w.typeName == Some(n.typeName))
    && (w.value == None || (n.value.Text? && w.value == Some(n.value.text)))
  }

  lemma IsHasAll(n: Node, w: Wanted)
    ensures Is(n, w) <==> HasAll(n, w)
  {
  }

  function Places(nodes: seq<Node>, w: Wanted): set<nat> {
    set i: nat | i < |nodes| && HasAll(nodes[i], w)
  }

  lemma {:induction false} CountIsHowMany(nodes: seq<Node>, w: Wanted)
    ensures Count(nodes, w) == |Places(nodes, w)|
    decreases |nodes|
  {
    if nodes == [] {
      assert Places(nodes, w) == {};
    } else {
      var front, last := nodes[..|nodes| - 1], |nodes| - 1;
      CountIsHowMany(front, w);
      IsHasAll(nodes[last], w);
      OneMorePlace(front, nodes[last], w);
      assert nodes == front + [nodes[last]];
    }
  }

  lemma OneMorePlace(front: seq<Node>, n: Node, w: Wanted)
    ensures |Places(front + [n], w)| == |Places(front, w)| + if HasAll(n, w) then 1 else 0
  {
    var before, after := Places(front, w), Places(front + [n], w);
    if HasAll(n, w) { assert after == before + {|front|}; } else { assert after == before; }
  }

  method CountMatches(root: Node, w: Wanted) returns (count: nat)
    ensures count == Count(IterNodes(root), w)
    ensures count == |Places(IterNodes(root), w)|
  {
    CountIsHowMany(IterNodes(root), w);
    var nodes := IterNodes(root);
    count := 0;
    for i := 0 to |nodes|
      invariant count == Count(nodes[..i], w)
    {
      assert nodes[..i + 1][..i] == nodes[..i];
      if Is(nodes[i], w) { count := count + 1; }
    }
    assert nodes[..|nodes|] == nodes;
  }

  function SameType(nodes: seq<Node>, typeName: string): seq<Node> {
    if nodes == [] then []
    else (if nodes[0].typeName == typeName then [nodes[0]] else []) + SameType(nodes[1..], typeName)
  }

  /** The first from `i` on with this path. */
  function FirstAt(nodes: seq<Node>, path: string, i: nat): Option<nat>
    requires i <= |nodes|
    decreases |nodes| - i
  {
    if i == |nodes| then None else if nodes[i].path == path then Some(i) else FirstAt(nodes, path, i + 1)
  }

  function IndexAmongSiblingsOfType(root: Node, element: Node): Option<nat> {
    if element.typeName == "" then None
    else FirstAt(SameType(IterNodes(root), element.typeName), element.path, 0)
  }

  method FindIndexAmongSiblingsOfType(root: Node, element: Node) returns (r: Option<nat>)
    ensures r == IndexAmongSiblingsOfType(root, element)
  {
    if element.typeName == "" { return None; }
    var sameType := SameType(IterNodes(root), element.typeName);
    for i := 0 to |sameType|
      invariant FirstAt(sameType, element.path, 0) == FirstAt(sameType, element.path, i)
    {
      if sameType[i].path == element.path { return Some(i); }
    }
    return None;
  }

  // ---- The candidates ----------------------------------------------------------------------------------------

  function Quoted(s: string): string {
    "\"" + s + "\""
  }

  function Lookup(byWhat: string, value: string): string {
    "page.get_by_" + byWhat + "(" + Quoted(Escape(value)) + ")"
  }

  function TypedLookup(typeName: string, key: string, value: string): string {
    "page.locator(\n    type=" + Quoted(typeName) + ",\n    " + key + "=" + Quoted(Escape(value)) + "\n)"
  }

  function PredicateText(identifier: string, labelText: string): string {
    (if identifier != "" then "identifier == " + Quoted(Escape(identifier)) else "")
    + (if identifier != "" && labelText != "" then " AND " else "")
    + (if labelText != "" then "label == " + Quoted(Escape(labelText)) else "")
  }

  function ById(root: Node, identifier: string, typeName: string): seq<Suggestion> {
    if identifier == "" then []
    else
      var unique := Only(root, ANYTHING.(identifier := Some(identifier)));
      [Suggestion(AccessibilityId, if unique then MAX_SCORE else 3, unique, Lookup("id", identifier),
                  NO_CRITERIA.(identifier := Some(identifier)), None)]
      + if unique then [] else
        [Suggestion(IdentifierAndType, 4, Only(root, ANYTHING.(identifier := Some(identifier), typeName := Some(typeName))),
                    TypedLookup(typeName, "identifier", identifier),
                    NO_CRITERIA.(elementType := Some(typeName), identifier := Some(identifier)), None)]
  }

  function ByLabel(root: Node, labelText: string, typeName: string): seq<Suggestion> {
    if labelText == "" then []
    else
      var unique := Only(root, ANYTHING.(labelText := Some(labelText)));
      var typed := Only(root, ANYTHING.(labelText := Some(labelText), typeName := Some(typeName)));
      [Suggestion(Label, if unique then 4 else 2, unique, Lookup("label", labelText),
                  NO_CRITERIA.(labelText := Some(labelText)), None)]
      + if typeName == "" then [] else
        [Suggestion(TypeAndLabel, if typed then 4 else 3, typed, TypedLookup(typeName, "label", labelText),
                    NO_CRITERIA.(elementType := Some(typeName), labelText := Some(labelText)), None)]
  }

  function ByText(root: Node, value: Value): seq<Suggestion> {
    if !value.Text? || Strip(value.text) == "" then []
    else [Suggestion(Text_, 3, Only(root, ANYTHING.(value := Some(value.text))), Lookup("text", value.text),
                     NO_CRITERIA.(text := Some(value.text)), None)]
  }

  function ByPredicate(identifier: string, labelText: string): seq<Suggestion> {
    if identifier == "" && labelText == "" then []
    else
      var format := PredicateText(identifier, labelText);
      [Suggestion(Predicate, 3, true, "page.get_by_predicate('" + format + "')",
                  NO_CRITERIA.(predicateFormat := Some(format)), None)]
  }

  function ByIndex(root: Node, element: Node): seq<Suggestion> {
    var index := IndexAmongSiblingsOfType(root, element);
    if index.None? then []
    else [Suggestion(Index, 2, true, "page.get_by_type(" + Quoted(element.typeName) + ").nth(" + Decimal.Print(index.value) + ")",
                     NO_CRITERIA.(elementType := Some(element.typeName)), index)]
  }

  /** The suggestions in the order they are thought of. */
  function Candidates(element: Node, root: Node): seq<Suggestion> {
    var identifier, labelText := Strip(element.identifier), Strip(element.labelText);
    ById(root, identifier, element.typeName) + ByLabel(root, labelText, element.typeName)
    + ByText(root, element.value) + ByPredicate(identifier, labelText) + ByIndex(root, element)
  }

  lemma InOneOf<T>(x: T, a: seq<T>, b: seq<T>, c: seq<T>, d: seq<T>, e: seq<T>)
    ensures x in a + b + c + d + e <==> x in a || x in b || x in c || x in d || x in e
  {
  }

  /** A suggestion is a candidate if and only if one of the rules makes it. */
  lemma FromItsOwnRule(element: Node, root: Node, s: Suggestion)
    ensures var identifier, labelText := Strip(element.identifier), Strip(element.labelText);
      s in Candidates(element, root) <==>
        || s in ById(root, identifier, element.typeName) || s in ByLabel(root, labelText, element.typeName)
        || s in ByText(root, element.value) || s in ByPredicate(identifier, labelText) || s in ByIndex(root, element)
  {
    var identifier, labelText := Strip(element.identifier), Strip(element.labelText);
    InOneOf(s, ById(root, identifier, element.typeName), ByLabel(root, labelText, element.typeName),
            ByText(root, element.value), ByPredicate(identifier, labelText), ByIndex(root, element));
  }

  /** Which strategies have something to say about an element. */
  predicate Offers(element: Node, root: Node, strategy: Strategy) {
    var identifier, labelText := Strip(element.identifier), Strip(element.labelText);
    match strategy
    case AccessibilityId => identifier != ""
    case IdentifierAndType => identifier != "" && |Places(IterNodes(root), ANYTHING.(identifier := Some(identifier)))| != 1
    case Label => labelText != ""
    case TypeAndLabel => labelText != "" && element.typeName != ""
    case Text_ => element.value.Text? && Strip(element.value.text) != ""
    case Predicate => identifier != "" || labelText != ""
    case Index => IndexAmongSiblingsOfType(root, element).Some?
  }

  lemma OnlyOffered(element: Node, root: Node, s: Suggestion)
    requires s in Candidates(element, root)
    ensures Offers(element, root, s.strategy)
  {
    FromItsOwnRule(element, root, s);
    CountIsHowMany(IterNodes(root), ANYTHING.(identifier := Some(Strip(element.identifier))));
  }

  lemma AllOffered(element: Node, root: Node, strategy: Strategy) returns (s: Suggestion)
    requires Offers(element, root, strategy)
    ensures s in Candidates(element, root) && s.strategy == strategy
  {
    var identifier, labelText := Strip(element.identifier), Strip(element.labelText);
    var byId, byLabel := ById(root, identifier, element.typeName), ByLabel(root, labelText, element.typeName);
    CountIsHowMany(IterNodes(root), ANYTHING.(identifier := Some(identifier)));
    s :=
      match strategy
      case AccessibilityId => byId[0]
      case IdentifierAndType => byId[1]
      case Label => byLabel[0]
      case TypeAndLabel => byLabel[1]
      case Text_ => ByText(root, element.value)[0]
      case Predicate => ByPredicate(identifier, labelText)[0]
      case Index => ByIndex(root, element)[0];
    FromItsOwnRule(element, root, s);
  }

  /** A strategy suggests something exactly when it has something to say. */
  lemma OfferedExactlyWhen(element: Node, root: Node, strategy: Strategy)
    ensures (exists s <- Candidates(element, root) :: s.strategy == strategy) <==> Offers(element, root, strategy)
  {
    if s :| s in Candidates(element, root) && s.strategy == strategy { OnlyOffered(element, root, s); }
    if Offers(element, root, strategy) {
      var s := AllOffered(element, root, strategy);
    }
  }

  /** The scores: five for an identifier of its own, and less the more a suggestion depends on. */
  lemma Scores(element: Node, root: Node, s: Suggestion)
    requires s in Candidates(element, root)
    ensures s.score ==
      match s.strategy
      case AccessibilityId => if s.unique then 5 else 3
      case IdentifierAndType => 4
      case Label => if s.unique then 4 else 2
      case TypeAndLabel => if s.unique then 4 else 3
      case Text_ => 3
      case Predicate => 3
      case Index => 2
    ensures s.strategy.Predicate? || s.strategy.Index? ==> s.unique
    ensures s.strategy.Text_? ==>
      && element.value.Text?
      && (s.unique <==> |Places(IterNodes(root), ANYTHING.(value := Some(element.value.text)))| == 1)
  {
    FromItsOwnRule(element, root, s);
    if element.value.Text? { CountIsHowMany(IterNodes(root), ANYTHING.(value := Some(element.value.text))); }
  }

  // ---- Ranking -------------------------------------------------------------------------------------------------

  /** The sort key: high scores first, then unique ones, then by name. */
  predicate Before(a: Suggestion, b: Suggestion) {
    || a.score > b.score
    || (a.score == b.score && a.unique && !b.unique)
    || (a.score == b.score && a.unique == b.unique && Alphabetical(a.strategy) < Alphabetical(b.strategy))
  }

  /** A lower score; or the same and not unique where the best is; or the same in both and no earlier by name. */
  predicate NoBetter(other: Suggestion, best: Suggestion) {
    other.score < best.score || (other.score == best.score &&
      ((best.unique && !other.unique) || (best.unique == other.unique && Alphabetical(best.strategy) <= Alphabetical(other.strategy))))
  }

  ghost predicate Ranked(suggestions: seq<Suggestion>) {
    forall i, j :: 0 <= i < j < |suggestions| ==> !Before(suggestions[j], suggestions[i])
  }

  lemma BeforeIsAnOrder(a: Suggestion, b: Suggestion, c: Suggestion)
    ensures !(Before(a, b) && Before(b, a))
    ensures !Before(b, a) && !Before(c, b) ==> !Before(c, a)
  {
  }

  /** A stable sort by the key. */
  method SortByKey(suggestions: seq<Suggestion>) returns (r: seq<Suggestion>)
    ensures Ranked(r) && multiset(r) == multiset(suggestions)
  {
    r := [];
    for i := 0 to |suggestions|
      invariant Ranked(r) && multiset(r) == multiset(suggestions[..i])
    {
      assert suggestions[..i + 1] == suggestions[..i] + [suggestions[i]];
      r := InsertByKey(r, suggestions[i]);
    }
    assert suggestions[..|suggestions|] == suggestions;
  }

  method InsertByKey(sorted: seq<Suggestion>, x: Suggestion) returns (r: seq<Suggestion>)
    requires Ranked(sorted)
    ensures Ranked(r) && multiset(r) == multiset(sorted) + multiset{x}
  {
    var k := |sorted|;
    while k > 0 && Before(x, sorted[k - 1])
      invariant 0 <= k <= |sorted|
      invariant forall j :: k <= j < |sorted| ==> Before(x, sorted[j])
    {
      BeforeIsAnOrder(x, sorted[k - 1], x);
      k := k - 1;
    }
    r := sorted[..k] + [x] + sorted[k..];
    InsertedIsRanked(sorted, x, k);
    assert sorted == sorted[..k] + sorted[k..];
  }

  lemma InsertedIsRanked(sorted: seq<Suggestion>, x: Suggestion, k: nat)
    requires Ranked(sorted) && k <= |sorted|
    requires forall j :: k <= j < |sorted| ==> Before(x, sorted[j])
    requires k > 0 ==> !Before(x, sorted[k - 1])
    ensures Ranked(sorted[..k] + [x] + sorted[k..])
  {
    forall j | 0 <= j < k ensures !Before(x, sorted[j]) {
      BeforeIsAnOrder(sorted[j], sorted[k - 1], x);
    }
    forall j | k <= j < |sorted| ensures !Before(sorted[j], x) {
      BeforeIsAnOrder(x, sorted[j], x);
    }
  }

  method SuggestById(root: Node, identifier: string, typeName: string) returns (r: seq<Suggestion>)
    ensures r == ById(root, identifier, typeName)
  {
    r := [];
    if identifier != "" {
      var count := CountMatches(root, ANYTHING.(identifier := Some(identifier)));
      var unique := count == 1;
      r := r + [Suggestion(AccessibilityId, if unique then MAX_SCORE else 3, unique,
        Lookup("id", identifier), NO_CRITERIA.(identifier := Some(identifier)), None)];
      if !unique {
        var narrowed := CountMatches(root, ANYTHING.(identifier := Some(identifier), typeName := Some(typeName)));
        r := r + [Suggestion(IdentifierAndType, 4, narrowed == 1, TypedLookup(typeName, "identifier", identifier),
          NO_CRITERIA.(elementType := Some(typeName), identifier := Some(identifier)), None)];
      }
    }
  }

  method SuggestByLabel(root: Node, labelText: string, typeName: string) returns (r: seq<Suggestion>)
    ensures r == ByLabel(root, labelText, typeName)
  {
    r := [];
    if labelText != "" {
      var count := CountMatches(root, ANYTHING.(labelText := Some(labelText)));
      r := r + [Suggestion(Label, if count == 1 then 4 else 2, count == 1,
        Lookup("label", labelText), NO_CRITERIA.(labelText := Some(labelText)), None)];
      if typeName != "" {
        var typed := CountMatches(root, ANYTHING.(labelText := Some(labelText), typeName := Some(typeName)));
        r := r + [Suggestion(TypeAndLabel, if typed == 1 then 4 else 3, typed == 1,
          TypedLookup(typeName, "label", labelText), NO_CRITERIA.(elementType := Some(typeName), labelText := Some(labelText)), None)];
      }
    }
  }

  /** The ranking: every candidate, no other, best first. */
  method Recommend(element: Node, root: Node) returns (suggestions: seq<Suggestion>)
    ensures Ranked(suggestions) && multiset(suggestions) == multiset(Candidates(element, root))
  {
    var identifier, labelText := Strip(element.identifier), Strip(element.labelText);
    suggestions := SuggestById(root, identifier, element.typeName);
    var byLabel := SuggestByLabel(root, labelText, element.typeName);
    suggestions := suggestions + byLabel;
    if element.value.Text? && Strip(element.value.text) != "" {
      var count := CountMatches(root, ANYTHING.(value := Some(element.value.text)));
      suggestions := suggestions + [Suggestion(Text_, 3, count == 1, Lookup("text", element.value.text),
        NO_CRITERIA.(text := Some(element.value.text)), None)];
    }
    ghost var soFar := ById(root, identifier, element.typeName) + ByLabel(root, labelText, element.typeName);
    assert suggestions == soFar + ByText(root, element.value);
    if identifier != "" || labelText != "" {
      var format := PredicateText(identifier, labelText);
      suggestions := suggestions + [Suggestion(Predicate, 3, true, "page.get_by_predicate('" + format + "')",
        NO_CRITERIA.(predicateFormat := Some(format)), None)];
    }
    assert suggestions == soFar + ByText(root, element.value) + ByPredicate(identifier, labelText);
    var index := FindIndexAmongSiblingsOfType(root, element);
    if index.Some? {
      suggestions := suggestions + [Suggestion(Index, 2, true,
        "page.get_by_type(" + Quoted(element.typeName) + ").nth(" + Decimal.Print(index.value) + ")",
        NO_CRITERIA.(elementType := Some(element.typeName)), index)];
    }
    assert suggestions == Candidates(element, root);
    suggestions := SortByKey(suggestions);
  }

  method BestLocator(element: Node, root: Node) returns (best: Option<Suggestion>)
    ensures best.None? <==> Candidates(element, root) == []
    ensures best.Some? ==> best.value in Candidates(element, root)
    ensures best.Some? ==> forall other <- Candidates(element, root) :: !Before(other, best.value)
    ensures best.Some? ==> forall other <- Candidates(element, root) :: NoBetter(other, best.value)
  {
    var suggestions := Recommend(element, root);
    SameMembers(suggestions, Candidates(element, root));
    if suggestions == [] { return None; }
    best := Some(suggestions[0]);
    BeforeIsAnOrder(suggestions[0], suggestions[0], suggestions[0]);
  }

  lemma SameMembers(xs: seq<Suggestion>, ys: seq<Suggestion>)
    requires multiset(xs) == multiset(ys)
    ensures forall x :: x in xs <==> x in ys
    ensures |xs| == |ys|
  {
    assert forall x :: x in xs <==> x in multiset(xs);
    assert forall y :: y in ys <==> y in multiset(ys);
    assert |multiset(xs)| == |xs| && |multiset(ys)| == |ys|;
  }

  // ---- The order of strategy names --------------------------------------------------------------------

  /** Python's order on strings. */
  predicate Less(a: string, b: string) {
    if b == "" then false
    else if a == "" then true
    else a[0] < b[0] || (a[0] == b[0] && Less(a[1..], b[1..]))
  }

  lemma LessByTwo(a: string, b: string)
    requires |a| >= 2 && |b| >= 2 && (a[0] != b[0] || a[1] != b[1])
    ensures Less(a, b) <==> a[0] < b[0] || (a[0] == b[0] && a[1] < b[1])
  {
    assert a[1..][0] == a[1] && b[1..][0] == b[1];
  }

  lemma {:induction false} LessIsStrict(a: string)
    ensures !Less(a, a)
    decreases |a|
  {
    if a != "" { LessIsStrict(a[1..]); }
  }

  function Initials(s: Strategy): (char, char) {
    match s
    case AccessibilityId => ('A', 'c')
    case IdentifierAndType => ('I', 'd')
    case Index => ('I', 'n')
    case Label => ('L', 'a')
    case Predicate => ('P', 'r')
    case Text_ => ('T', 'e')
    case TypeAndLabel => ('T', 'y')
  }

  lemma NameStarts(s: Strategy)
    ensures |Name(s)| >= 2 && (Name(s)[0], Name(s)[1]) == Initials(s)
  {
  }

  /** The tie-breaker of the sort is Python's order on the strategies' names. */
  lemma NamesInOrder(a: Strategy, b: Strategy)
    ensures Less(Name(a), Name(b)) <==> Alphabetical(a) < Alphabetical(b)
  {
    NameStarts(a);
    NameStarts(b);
    if a == b { LessIsStrict(Name(a)); } else { LessByTwo(Name(a), Name(b)); }
  }

  // ---- The rules of the ranking -------------------------------------------------------------------------

  lemma UniqueIdIsSuggested(element: Node, root: Node) returns (s: Suggestion)
    requires var identifier := Strip(element.identifier);
      identifier != "" && Count(IterNodes(root), ANYTHING.(identifier := Some(identifier))) == 1
    ensures s in Candidates(element, root) && s.strategy == AccessibilityId && s.unique && s.score == 5
  {
    s := ById(root, Strip(element.identifier), element.typeName)[0];
    FromItsOwnRule(element, root, s);
  }

  lemma AnythingBeatsTheIndex(element: Node, root: Node) returns (s: Suggestion)
    requires Strip(element.identifier) != "" || Strip(element.labelText) != "" || (element.value.Text? && Strip(element.value.text) != "")
    ensures s in Candidates(element, root) && s.score == 3
  {
    var identifier, labelText := Strip(element.identifier), Strip(element.labelText);
    s := if identifier != "" || labelText != "" then ByPredicate(identifier, labelText)[0] else ByText(root, element.value)[0];
    FromItsOwnRule(element, root, s);
  }

  lemma ScoreOfAnother(element: Node, root: Node, s: Suggestion)
    requires s in Candidates(element, root)
    ensures s.score <= 5 && (s.score == 5 ==> s.strategy == AccessibilityId && s.unique) && (s.strategy == Index ==> s.score == 2)
  {
    FromItsOwnRule(element, root, s);
  }

  /**
   The two rules of the ranking: an identifier that is unique comes first, and a position in the tree
   comes last, where there is neither an identifier, nor a label, nor a text.
  */
  lemma BestFollowsTheRules(element: Node, root: Node, best: Suggestion)
    requires best in Candidates(element, root) && forall other <- Candidates(element, root) :: !Before(other, best)
    ensures var identifier := Strip(element.identifier);
      identifier != "" && Count(IterNodes(root), ANYTHING.(identifier := Some(identifier))) == 1 ==>
        best.strategy == AccessibilityId && best.unique
    ensures best.strategy == Index ==>
      Strip(element.identifier) == "" && Strip(element.labelText) == "" && !(element.value.Text? && Strip(element.value.text) != "")
  {
    var identifier := Strip(element.identifier);
    ScoreOfAnother(element, root, best);
    if identifier != "" && Count(IterNodes(root), ANYTHING.(identifier := Some(identifier))) == 1 {
      var s := UniqueIdIsSuggested(element, root);
    }
    if identifier != "" || Strip(element.labelText) != "" || (element.value.Text? && Strip(element.value.text) != "") {
      var s := AnythingBeatsTheIndex(element, root);
    }
  }
}
