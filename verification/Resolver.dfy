/** How the agent turns a selector into a query on the accessibility tree, and what the query finds. */
module Resolver {
  import opened Wrappers
  import opened ElementTypes
  import opened Snapshot
  import opened Selectors

  // ---- Predicates -----------------------------------------------------------------------------------

  datatype Attribute = Identifier | Label | ValueText | Title | PlaceholderValue

  /** The part of `NSPredicate` the agent builds. */
  datatype Predicate =
    | Compare(attribute: Attribute, exact: bool, text: string)
    | Format(format: string)
    | AllOf(parts: seq<Predicate>)
    | AnyOf(parts: seq<Predicate>)

  /** What XCTest makes of a predicate given as text: it knows, this model does not. */
  type Custom = (string, Element) -> bool

  function Reading(e: Element, a: Attribute): Option<string> {
    match a
    case Identifier => Some(e.identifier)
    case Label => Some(e.labelText)
    case ValueText => if e.value.Text? then Some(e.value.text) else None
    case Title => Some(e.title)
    case PlaceholderValue => e.placeholder
  }

  predicate Occurs(part: string, whole: string) {
    part <= whole || (whole != "" && Occurs(part, whole[1..]))
  }

  /** The part is found somewhere in the whole. */
  lemma {:induction false} OccursSomewhere(part: string, whole: string)
    ensures Occurs(part, whole) <==> exists before, after :: before + part + after == whole
    decreases |whole|
  {
    if part <= whole {
      assert "" + part + whole[|part|..] == whole;
    } else if whole != "" {
      OccursSomewhere(part, whole[1..]);
      if before, after :| before + part + after == whole {
        assert before == "" ==> part + after == whole;
        assert before[1..] + part + after == whole[1..];
      }
      if before, after :| before + part + after == whole[1..] {
        assert ([whole[0]] + before) + part + after == whole;
      }
    }
  }

  predicate Reads(e: Element, a: Attribute, exact: bool, text: string) {
    match Reading(e, a)
    case None => false
    case Some(s) => if exact then s == text else Occurs(text, s)
  }

  predicate Holds(p: Predicate, e: Element, custom: Custom) {
    match p
    case Compare(a, exact, text) => Reads(e, a, exact, text)
    case Format(f) => custom(f, e)
    case AllOf(parts) => forall part <- parts :: Holds(part, e, custom)
    case AnyOf(parts) => exists part <- parts :: Holds(part, e, custom)
  }

  /** The attribute is there, and is the text, or, where that is enough, has it somewhere inside. */
  ghost predicate Has(attribute: Option<string>, exact: bool, text: string) {
    && attribute.Some?
    && if exact then attribute.value == text else exists before, after :: before + text + after == attribute.value
  }

  lemma ReadsWhatItHas(e: Element, a: Attribute, exact: bool, text: string)
    ensures Reads(e, a, exact, text) <==> Has(Reading(e, a), exact, text)
  {
    if Reading(e, a).Some? { OccursSomewhere(text, Reading(e, a).value); }
  }

  /** What a selector asks of an element besides its type: all the criteria that are there. */
  predicate Criteria(s: Selector, e: Element, custom: Custom) {
    && (s.identifier.Some? ==> Reads(e, Identifier, s.exact, s.identifier.value))
    && (s.labelText.Some? ==> Reads(e, Label, s.exact, s.labelText.value))
    && (s.value.Some? ==> Reads(e, ValueText, s.exact, s.value.value))
    && (s.text.Some? ==>
      || Reads(e, Label, s.exact, s.text.value) || Reads(e, ValueText, s.exact, s.text.value)
      || Reads(e, Title, s.exact, s.text.value) || Reads(e, PlaceholderValue, s.exact, s.text.value))
    && (s.predicateFormat.Some? ==> custom(s.predicateFormat.value, e))
  }

  /** The same, attribute by attribute. A value that is not text has no text inside; `text` may be in any of four places. */
  ghost predicate Meets(s: Selector, e: Element, custom: Custom) {
    var valueText := if e.value.Text? then Some(e.value.text) else None;
    && (s.identifier.Some? ==> Has(Some(e.identifier), s.exact, s.identifier.value))
    && (s.labelText.Some? ==> Has(Some(e.labelText), s.exact, s.labelText.value))
    && (s.value.Some? ==> Has(valueText, s.exact, s.value.value))
    && (s.text.Some? ==>
      || Has(Some(e.labelText), s.exact, s.text.value) || Has(valueText, s.exact, s.text.value)
      || Has(Some(e.title), s.exact, s.text.value) || Has(e.placeholder, s.exact, s.text.value))
    && (s.predicateFormat.Some? ==> custom(s.predicateFormat.value, e))
  }

  lemma CriteriaMeet(s: Selector, e: Element, custom: Custom)
    ensures Criteria(s, e, custom) <==> Meets(s, e, custom)
  {
    forall a: Attribute, text: string ensures Reads(e, a, s.exact, text) <==> Has(Reading(e, a), s.exact, text) {
      ReadsWhatItHas(e, a, s.exact, text);
    }
  }

  lemma AllHoldAppend(parts: seq<Predicate>, p: Predicate, e: Element, custom: Custom)
    ensures Holds(AllOf(parts + [p]), e, custom) <==> Holds(AllOf(parts), e, custom) && Holds(p, e, custom)
  {
    assert p in parts + [p];
    assert forall part <- parts :: part in parts + [p];
  }

  /** `text` may be in any of four attributes. */
  function Somewhere(text: string, exact: bool): Predicate {
    AnyOf([Compare(Label, exact, text), Compare(ValueText, exact, text),
           Compare(Title, exact, text), Compare(PlaceholderValue, exact, text)])
  }

  lemma SomewhereHolds(text: string, exact: bool, e: Element, custom: Custom)
    ensures Holds(Somewhere(text, exact), e, custom) <==>
      || Reads(e, Label, exact, text) || Reads(e, ValueText, exact, text)
      || Reads(e, Title, exact, text) || Reads(e, PlaceholderValue, exact, text)
  {
    var parts := Somewhere(text, exact).parts;
    assert Holds(parts[0], e, custom) <==> Reads(e, Label, exact, text);
    assert Holds(parts[1], e, custom) <==> Reads(e, ValueText, exact, text);
    assert Holds(parts[2], e, custom) <==> Reads(e, Title, exact, text);
    assert Holds(parts[3], e, custom) <==> Reads(e, PlaceholderValue, exact, text);
  }

  /** One predicate for the criteria that are there: none, the only one, or all of them. */
  method BuildPredicate(s: Selector, ghost e: Element, ghost custom: Custom) returns (p: Option<Predicate>)
    ensures p.None? <==> s.identifier.None? && s.labelText.None? && s.value.None? && s.text.None? && s.predicateFormat.None?
    ensures (p.None? || Holds(p.value, e, custom)) <==> Criteria(s, e, custom)
    ensures (p.None? || Holds(p.value, e, custom)) <==> Meets(s, e, custom)
  {
    var parts: seq<Predicate> := [];
    CriteriaMeet(s, e, custom);
    assert Holds(AllOf(parts), e, custom);
    if s.identifier.Some? {
      AllHoldAppend(parts, Compare(Identifier, s.exact, s.identifier.value), e, custom);
      parts := parts + [Compare(Identifier, s.exact, s.identifier.value)];
    }
    if s.labelText.Some? {
      AllHoldAppend(parts, Compare(Label, s.exact, s.labelText.value), e, custom);
      parts := parts + [Compare(Label, s.exact, s.labelText.value)];
    }
    if s.value.Some? {
      AllHoldAppend(parts, Compare(ValueText, s.exact, s.value.value), e, custom);
      parts := parts + [Compare(ValueText, s.exact, s.value.value)];
    }
    if s.text.Some? {
      SomewhereHolds(s.text.value, s.exact, e, custom);
      AllHoldAppend(parts, Somewhere(s.text.value, s.exact), e, custom);
      parts := parts + [Somewhere(s.text.value, s.exact)];
    }
    if s.predicateFormat.Some? {
      AllHoldAppend(parts, Format(s.predicateFormat.value), e, custom);
      parts := parts + [Format(s.predicateFormat.value)];
    }
    assert Holds(AllOf(parts), e, custom) <==> Criteria(s, e, custom);
    if parts == [] { return None; }
    if |parts| == 1 { return Some(parts[0]); }
    return Some(AllOf(parts));
  }

  // ---- Queries ------------------------------------------------------------------------------------------

  /** `.any` matches every type; so does a name the mapper does not list. */
  predicate TypeFits(s: Selector, e: Element) {
    var wanted := if s.elementType.None? then Any else TypeNamed(s.elementType.value);
    wanted == Any || wanted == e.elementType
  }

  predicate Fits(s: Selector, e: Element, custom: Custom) {
    TypeFits(s, e) && Criteria(s, e, custom)
  }

  /** A query's matches, or the test failure XCTest raises where one element is needed and several match. */
  datatype Found = Matches(at: seq<Address>) | Several

  /** The proper descendants of an element, in pre-order. */
  function Descendants(app: Element, at: Address): seq<Address>
    requires At(app, at).Some?
  {
    var inner := Preorder(At(app, at).value);
    seq(|inner| - 1, k requires 0 <= k < |inner| - 1 => at + inner[k + 1])
  }

  lemma DescendantsLead(app: Element, at: Address)
    requires At(app, at).Some?
    ensures forall a <- Descendants(app, at) :: At(app, a).Some?
  {
    var e := At(app, at).value;
    AllAddressesLead(e);
    forall a | a in Descendants(app, at) ensures At(app, a).Some? {
      var k :| 0 <= k < |Preorder(e)| - 1 && a == at + Preorder(e)[k + 1];
      AtExtended(app, at, Preorder(e)[k + 1]);
    }
  }

  lemma {:induction false} AtExtended(e: Element, at: Address, more: Address)
    requires At(e, at).Some?
    ensures At(e, at + more) == At(At(e, at).value, more)
    decreases |at|
  {
    if at == [] {
      assert at + more == more;
    } else {
      assert (at + more)[1..] == at[1..] + more;
      AtExtended(e.children[at[0]], at[1..], more);
    }
  }

  /** The addresses of the elements that are wanted, in order. */
  function Filter(app: Element, addresses: seq<Address>, wanted: Element -> bool): (r: seq<Address>)
    requires forall a <- addresses :: At(app, a).Some?
    ensures forall a :: a in r <==> a in addresses && wanted(At(app, a).value)
  {
    if addresses == [] then []
    else
      assert addresses == [addresses[0]] + addresses[1..];
      (if wanted(At(app, addresses[0]).value) then [addresses[0]] else []) + Filter(app, addresses[1..], wanted)
  }

  function WantedBy(s: Selector, custom: Custom): Element -> bool {
    e => Fits(s, e, custom)
  }

  /** The query for a selector. A parent must match one element, and its index is not looked at. */
  function Query(app: Element, s: Selector, custom: Custom): (r: Found)
    ensures r.Matches? ==> forall a <- r.at :: At(app, a).Some? && Fits(s, At(app, a).value, custom)
    decreases s
  {
    var scope := if s.parent.None? then Matches([[]]) else Query(app, s.parent.value, custom);
    if scope.Several? || |scope.at| > 1 then Several
    else if scope.at == [] then Matches([])
    else
      assert scope.at[0] in scope.at;
      DescendantsLead(app, scope.at[0]);
      Matches(Filter(app, Descendants(app, scope.at[0]), WantedBy(s, custom)))
  }

  lemma ProperDescendantsAreBelow(app: Element, at: Address, a: Address)
    requires At(app, at).Some? && a in Descendants(app, at)
    ensures at < a
  {
    var e := At(app, at).value;
    var k :| 0 <= k < |Preorder(e)| - 1 && a == at + Preorder(e)[k + 1];
    assert Preorder(e)[k + 1] in PreorderFrom(e, 0);
    var below := Preorder(e)[k + 1];
    if below != [] && below[0] < |e.children| { PreorderIsComplete(e.children[below[0]], below[1..]); }
    PreorderFromIsComplete(e, 0, below);
  }

  predicate IsBelow(app: Element, at: Address, a: Address) {
    At(app, a).Some? && at < a
  }

  lemma DescendantsAreBelow(app: Element, at: Address, a: Address)
    requires At(app, at).Some?
    ensures a in Descendants(app, at) <==> IsBelow(app, at, a)
  {
    var e := At(app, at).value;
    if a in Descendants(app, at) {
      DescendantsLead(app, at);
      ProperDescendantsAreBelow(app, at, a);
    }
    if IsBelow(app, at, a) {
      var more := a[|at|..];
      assert a == at + more;
      AtExtended(app, at, more);
      PreorderIsComplete(e, more);
      var k :| 0 <= k < |Preorder(e)| && Preorder(e)[k] == more;
      assert Descendants(app, at)[k - 1] == a;
    }
  }

  lemma {:induction false} SameStartSameOrder(at: Address, a: Address, b: Address)
    ensures Precedes(at + a, at + b) <==> Precedes(a, b)
    decreases |at|
  {
    if at == [] {
      assert at + a == a && at + b == b;
    } else {
      assert (at + a)[1..] == at[1..] + a && (at + b)[1..] == at[1..] + b;
      SameStartSameOrder(at[1..], a, b);
    }
  }

  lemma DescendantsAreInOrder(app: Element, at: Address)
    requires At(app, at).Some?
    ensures InOrder(Descendants(app, at))
  {
    var inner, below := Preorder(At(app, at).value), Descendants(app, at);
    PreorderIsInOrder(At(app, at).value);
    forall i, j | 0 <= i < j < |below| ensures Precedes(below[i], below[j]) {
      SameStartSameOrder(at, inner[i + 1], inner[j + 1]);
    }
  }

  lemma {:induction false} FilterKeepsOrder(app: Element, addresses: seq<Address>, wanted: Element -> bool)
    requires (forall a <- addresses :: At(app, a).Some?) && InOrder(addresses)
    ensures InOrder(Filter(app, addresses, wanted))
    decreases |addresses|
  {
    if addresses != [] {
      var rest := Filter(app, addresses[1..], wanted);
      FilterKeepsOrder(app, addresses[1..], wanted);
      forall a | a in rest ensures Precedes(addresses[0], a) {
        var i :| 0 <= i < |addresses[1..]| && addresses[1..][i] == a;
        assert addresses[i + 1] == a;
      }
    }
  }

  /** All elements below the one at `p` that fit, in the order of the tree, and no others. */
  ghost predicate AllBelow(app: Element, p: Address, s: Selector, custom: Custom, found: seq<Address>) {
    && InOrder(found)
    && forall a: Address :: a in found <==> IsBelow(app, p, a) && Fits(s, At(app, a).value, custom)
  }

  lemma FilteredBelow(app: Element, p: Address, s: Selector, custom: Custom)
    requires At(app, p).Some?
    ensures forall a <- Descendants(app, p) :: At(app, a).Some?
    ensures AllBelow(app, p, s, custom, Filter(app, Descendants(app, p), WantedBy(s, custom)))
  {
    DescendantsLead(app, p);
    DescendantsAreInOrder(app, p);
    FilterKeepsOrder(app, Descendants(app, p), WantedBy(s, custom));
    forall a: Address ensures a in Descendants(app, p) <==> IsBelow(app, p, a) { DescendantsAreBelow(app, p, a); }
  }

  /**
   What a query finds, exactly. Without a parent it finds all elements below the root that fit, in the
   order of the tree. With one it finds those below the one element the parent's query finds; nothing
   if that finds none; and it fails if that fails or finds several.
  */
  lemma QueryFinds(app: Element, s: Selector, custom: Custom)
    ensures s.parent.None? ==> Query(app, s, custom).Matches? && AllBelow(app, [], s, custom, Query(app, s, custom).at)
    ensures s.parent.Some? ==>
      var scope := Query(app, s.parent.value, custom);
      && (Query(app, s, custom).Several? <==> scope.Several? || |scope.at| > 1)
      && (scope == Matches([]) ==> Query(app, s, custom) == Matches([]))
      && (scope.Matches? && |scope.at| == 1 ==> AllBelow(app, scope.at[0], s, custom, Query(app, s, custom).at))
  {
    if s.parent.None? {
      FilteredBelow(app, [], s, custom);
    } else {
      var scope := Query(app, s.parent.value, custom);
      if scope.Matches? && |scope.at| == 1 {
        assert scope.at[0] in scope.at;
        FilteredBelow(app, scope.at[0], s, custom);
      }
    }
  }

  datatype Resolved = Element_(at: Address) | Missing | Failure

  /** `element(boundBy:)` when there is an index, `firstMatch` otherwise. */
  function Resolve(app: Element, s: Selector, custom: Custom): Resolved {
    match Query(app, s, custom)
    case Several => Failure
    case Matches(at) =>
      var i := if s.index.Some? then s.index.value else 0;
      if 0 <= i < |at| then Element_(at[i]) else Missing
  }

  /** A parent's index has no effect on what its children's query finds. */
  lemma ParentIndexIsDropped(app: Element, s: Selector, i: Option<int>, custom: Custom)
    requires s.parent.Some?
    ensures Query(app, s, custom) == Query(app, s.(parent := Some(s.parent.value.(index := i))), custom)
  {
    IndexIsNotQueried(app, s.parent.value, i, custom);
    var t := s.(parent := Some(s.parent.value.(index := i)));
    var scope := Query(app, s.parent.value, custom);
    if scope.Matches? && |scope.at| == 1 {
      assert scope.at[0] in scope.at;
      DescendantsLead(app, scope.at[0]);
      SameFilter(app, Descendants(app, scope.at[0]), WantedBy(s, custom), WantedBy(t, custom));
    }
  }

  lemma IndexIsNotQueried(app: Element, s: Selector, i: Option<int>, custom: Custom)
    ensures Query(app, s, custom) == Query(app, s.(index := i), custom)
  {
    var t := s.(index := i);
    var scope := if s.parent.None? then Matches([[]]) else Query(app, s.parent.value, custom);
    if scope.Matches? && |scope.at| == 1 {
      assert scope.at[0] in scope.at;
      DescendantsLead(app, scope.at[0]);
      SameFilter(app, Descendants(app, scope.at[0]), WantedBy(s, custom), WantedBy(t, custom));
    }
  }

  lemma {:induction false} SameFilter(app: Element, addresses: seq<Address>, wanted: Element -> bool, alsoWanted: Element -> bool)
    requires forall a <- addresses :: At(app, a).Some?
    requires forall e :: wanted(e) == alsoWanted(e)
    ensures Filter(app, addresses, wanted) == Filter(app, addresses, alsoWanted)
    decreases |addresses|
  {
    if addresses != [] { SameFilter(app, addresses[1..], wanted, alsoWanted); }
  }

  /** A chain finds something only if its parent finds one element, and all it finds lies below that one. */
  lemma ChainsDescend(app: Element, s: Selector, custom: Custom, a: Address)
    requires s.parent.Some? && Query(app, s, custom).Matches? && a in Query(app, s, custom).at
    ensures Query(app, s.parent.value, custom).Matches? && |Query(app, s.parent.value, custom).at| == 1
    ensures Query(app, s.parent.value, custom).at[0] < a
  {
    var p := Query(app, s.parent.value, custom).at[0];
    assert p in Query(app, s.parent.value, custom).at;
    DescendantsLead(app, p);
    ProperDescendantsAreBelow(app, p, a);
  }

  // ---- Strategies ----------------------------------------------------------------------------------------

  /** What the strategies of the SDK ask of an element. */
  lemma StrategyAsks(strategy: string, text: string, e: Element, custom: Custom, printed: int -> string, whole: string -> Option<int>)
    requires strategy != "index" && ByStrategy(strategy, Word(text), printed, whole).Some?
    ensures var fits := Fits(ByStrategy(strategy, Word(text), printed, whole).value, e, custom);
      && (strategy == "accessibilityId" || strategy == "identifier" ==> (fits <==> e.identifier == text))
      && (strategy == "label" ==> (fits <==> e.labelText == text))
      && (strategy == "text" ==>
        (fits <==> e.labelText == text || e.value == Text(text) || e.title == text || e.placeholder == Some(text)))
      && (strategy == "type" ==> (fits <==> TypeNamed(text) == Any || TypeNamed(text) == e.elementType))
      && (strategy == "predicate" ==> (fits <==> custom(text, e)))
  {
    var s := ByStrategy(strategy, Word(text), printed, whole).value;
    StrategySets(strategy, text, printed, whole);
  }

  lemma StrategySets(strategy: string, text: string, printed: int -> string, whole: string -> Option<int>)
    requires strategy != "index" && ByStrategy(strategy, Word(text), printed, whole).Some?
    ensures var s := ByStrategy(strategy, Word(text), printed, whole).value;
      && (strategy == "accessibilityId" || strategy == "identifier" ==> s == NO_CRITERIA.(identifier := Some(text)))
      && (strategy == "label" ==> s == NO_CRITERIA.(labelText := Some(text)))
      && (strategy == "text" ==> s == NO_CRITERIA.(text := Some(text)))
      && (strategy == "type" ==> s == NO_CRITERIA.(elementType := Some(text)))
      && (strategy == "predicate" ==> s == NO_CRITERIA.(predicateFormat := Some(text)))
  {
  }
}
