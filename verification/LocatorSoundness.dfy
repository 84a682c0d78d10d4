/** Which suggestions lead back to the element they were made for. */
module LocatorSoundness {
  import opened Wrappers
  import opened ElementTypes
  import opened Snapshot
  import opened PythonText
  import opened Selectors
  import opened Resolver
  import opened Execution
  import L = Locators

  // ---- Counting and being the only one ------------------------------------------------------------------

  lemma {:induction false} EachMatchCounts(nodes: seq<Node>, w: L.Wanted, i: nat)
    requires i < |nodes| && L.Is(nodes[i], w)
    ensures L.Count(nodes, w) >= 1
    decreases |nodes|
  {
    if i < |nodes| - 1 { EachMatchCounts(nodes[..|nodes| - 1], w, i); }
  }

  /** A count of one means no two nodes match. */
  lemma {:induction false} OnlyOneMatches(nodes: seq<Node>, w: L.Wanted, i: nat, j: nat)
    requires L.Count(nodes, w) == 1
    requires i < |nodes| && j < |nodes| && L.Is(nodes[i], w) && L.Is(nodes[j], w)
    ensures i == j
    decreases |nodes|
  {
    var last := |nodes| - 1;
    if i < last && j < last {
      EachMatchCounts(nodes[..last], w, i);
      OnlyOneMatches(nodes[..last], w, i, j);
    } else if i < last {
      EachMatchCounts(nodes[..last], w, i);
    } else if j < last {
      EachMatchCounts(nodes[..last], w, j);
    }
  }

  // ---- The suggestions that name a unique element ----------------------------------------------------------

  predicate ByName(s: L.Strategy) {
    s.AccessibilityId? || s.IdentifierAndType? || s.Label? || s.TypeAndLabel?
  }

  predicate UsesIdentifier(s: L.Strategy) { s.AccessibilityId? || s.IdentifierAndType? }

  predicate UsesType(s: L.Strategy) { s.IdentifierAndType? || s.TypeAndLabel? }

  /** The attribute a suggestion by name goes by. */
  function NameOf(e: Element, s: L.Strategy): string {
    if UsesIdentifier(s) then e.identifier else e.labelText
  }

  /** What a suggestion by name counts, and what it asks for: the same criteria. */
  function CountedFor(s: L.Strategy, name: string, typeName: string): L.Wanted {
    L.Wanted(if UsesIdentifier(s) then Some(name) else None, if UsesIdentifier(s) then None else Some(name),
             if UsesType(s) then Some(typeName) else None, None)
  }

  function AskedFor(s: L.Strategy, name: string, typeName: string): Selector {
    Selector(if UsesType(s) then Some(typeName) else None, if UsesIdentifier(s) then Some(name) else None,
             if UsesIdentifier(s) then None else Some(name), None, None, None, None, true, None)
  }

  lemma ByIdShape(root: Node, identifier: string, typeName: string, s: L.Suggestion)
    requires s in L.ById(root, identifier, typeName)
    ensures UsesIdentifier(s.strategy) && L.Build(s) == AskedFor(s.strategy, identifier, typeName)
    ensures s.unique <==> L.Only(root, CountedFor(s.strategy, identifier, typeName))
  {
  }

  lemma ByLabelShape(root: Node, labelText: string, typeName: string, s: L.Suggestion)
    requires s in L.ByLabel(root, labelText, typeName)
    ensures ByName(s.strategy) && !UsesIdentifier(s.strategy) && L.Build(s) == AskedFor(s.strategy, labelText, typeName)
    ensures s.unique <==> L.Only(root, CountedFor(s.strategy, labelText, typeName))
  {
  }

  lemma SuggestionsByName(element: Node, root: Node, s: L.Suggestion)
    requires s in L.Candidates(element, root) && ByName(s.strategy)
    ensures var name := Strip(if UsesIdentifier(s.strategy) then element.identifier else element.labelText);
      && L.Build(s) == AskedFor(s.strategy, name, element.typeName)
      && (s.unique <==> L.Only(root, CountedFor(s.strategy, name, element.typeName)))
  {
    var identifier, labelText := Strip(element.identifier), Strip(element.labelText);
    L.FromItsOwnRule(element, root, s);
    if s in L.ById(root, identifier, element.typeName) {
      ByIdShape(root, identifier, element.typeName, s);
    } else if s in L.ByLabel(root, labelText, element.typeName) {
      ByLabelShape(root, labelText, element.typeName, s);
    }
  }

  /** What the agent's query and the Inspector's count make of the same element. */
  lemma SameTypeOnBothSides(t: ElementType, u: ElementType)
    ensures var wanted := TypeNamed(NameFor(t));
      && (wanted == Any <==> t == Any)
      && (wanted == t <==> !t.Unlisted?)
      && (wanted == u && !t.Unlisted? ==> NameFor(u) == NameFor(t))
  {
    TypeNameRoundTrip(t);
  }

  /**
   When executing a unique suggestion by name finds its element: the name has no whitespace around it,
   the element is not the root, and a type that is named along is one the mapper lists; if that is
   `any`, which the agent takes for every type, no element before it has the same name.
  */
  ghost predicate Findable(app: Element, k: nat, s: L.Strategy)
    requires k < |Preorder(app)|
  {
    var e := Nth(app, k);
    && k > 0 && Trimmed(NameOf(e, s))
    && (UsesType(s) ==>
      && !e.elementType.Unlisted?
      && (e.elementType == Any ==> forall j :: 0 < j < k ==> NameOf(Nth(app, j), s) != NameOf(e, s)))
  }

  /** A query by name fits an element exactly when name and type agree. */
  lemma FitsByName(s: L.Strategy, name: string, t: ElementType, e: Element, custom: Custom)
    requires ByName(s)
    ensures Fits(AskedFor(s, name, NameFor(t)), e, custom) <==>
      && NameOf(e, s) == name
      && (UsesType(s) ==> TypeNamed(NameFor(t)) == Any || TypeNamed(NameFor(t)) == e.elementType)
  {
  }

  lemma IsByName(s: L.Strategy, name: string, t: ElementType, n: Node, e: Element, at: Address, o: Options)
    requires ByName(s) && Flat(n) == Describe(e, at, o)
    ensures L.Is(n, CountedFor(s, name, NameFor(t))) <==> NameOf(e, s) == name && (UsesType(s) ==> NameFor(e.elementType) == NameFor(t))
  {
    assert Flat(n).identifier == n.identifier && Flat(n).labelText == n.labelText && Flat(n).typeName == n.typeName;
  }

  /**
   Soundness of the unique suggestions by identifier or label, with or without the type, on a
   snapshot with nothing left out: executed, such a suggestion finds the element it was made for if
   and only if that element is findable by it.
  */
  lemma UniqueSuggestionFindsItsElement(
      app: Element, o: Options, tree: Node, k: nat, s: L.Suggestion, custom: Custom, double: string -> Option<int>)
    requires Serialize(app, o) == Some(tree) && IsWhole(app, o)
    requires k < |IterNodes(tree)|
    requires s in L.Candidates(IterNodes(tree)[k], tree) && ByName(s.strategy) && s.unique
    ensures |IterNodes(tree)| == |Preorder(app)|
    ensures Execute(app, s, custom, double) == Element_(Preorder(app)[k]) <==> Findable(app, k, s.strategy)
  {
    WholeWalk(app, o, tree);
    var e, n := Nth(app, k), IterNodes(tree)[k];
    assert Flat(n).identifier == n.identifier && Flat(n).labelText == n.labelText && Flat(n).typeName == n.typeName;
    SuggestionsByName(n, tree, s);
    var name := Strip(NameOf(e, s.strategy));
    StripTrims(NameOf(e, s.strategy));
    ExecuteResolves(app, s, custom, double);
    ResolvesTo(app, AskedFor(s.strategy, name, NameFor(e.elementType)), custom, k);
    FitsByName(s.strategy, name, e.elementType, e, custom);
    SameTypeOnBothSides(e.elementType, e.elementType);
    if k > 0 && name == NameOf(e, s.strategy) && (UsesType(s.strategy) ==> !e.elementType.Unlisted?) {
      NoneBefore(app, o, tree, k, s.strategy, custom);
    }
  }

  /** If the element is the only one counted, a query by its name finds another only for type `any`. */
  lemma FindsAnother(app: Element, o: Options, tree: Node, k: nat, j: nat, s: L.Strategy, custom: Custom)
    requires Serialize(app, o) == Some(tree) && IsWhole(app, o)
    requires k < |Preorder(app)| && j < |Preorder(app)| && j != k && ByName(s)
    requires L.Only(tree, CountedFor(s, NameOf(Nth(app, k), s), NameFor(Nth(app, k).elementType)))
    requires UsesType(s) ==> !Nth(app, k).elementType.Unlisted?
    ensures var e, other := Nth(app, k), Nth(app, j);
      Fits(AskedFor(s, NameOf(e, s), NameFor(e.elementType)), other, custom) <==>
        NameOf(other, s) == NameOf(e, s) && UsesType(s) && e.elementType == Any
  {
    WholeWalk(app, o, tree);
    var e, other, nodes := Nth(app, k), Nth(app, j), IterNodes(tree);
    var name, t := NameOf(e, s), e.elementType;
    FitsByName(s, name, t, other, custom);
    SameTypeOnBothSides(t, other.elementType);
    IsByName(s, name, t, nodes[j], other, Preorder(app)[j], o);
    IsByName(s, name, t, nodes[k], e, Preorder(app)[k], o);
    if L.Is(nodes[j], CountedFor(s, name, NameFor(t))) { OnlyOneMatches(nodes, CountedFor(s, name, NameFor(t)), j, k); }
  }

  lemma NoneBefore(app: Element, o: Options, tree: Node, k: nat, s: L.Strategy, custom: Custom)
    requires Serialize(app, o) == Some(tree) && IsWhole(app, o)
    requires 0 < k < |Preorder(app)| && ByName(s)
    requires L.Only(tree, CountedFor(s, NameOf(Nth(app, k), s), NameFor(Nth(app, k).elementType)))
    requires UsesType(s) ==> !Nth(app, k).elementType.Unlisted?
    ensures var e := Nth(app, k);
      |Filter(app, Earlier(app, k), WantedBy(AskedFor(s, NameOf(e, s), NameFor(e.elementType)), custom))| == 0 <==>
        (UsesType(s) && e.elementType == Any ==> forall j :: 0 < j < k ==> NameOf(Nth(app, j), s) != NameOf(e, s))
  {
    var e := Nth(app, k);
    var asked := AskedFor(s, NameOf(e, s), NameFor(e.elementType));
    forall j | 0 < j < k
      ensures Fits(asked, Nth(app, j), custom) <==> NameOf(Nth(app, j), s) == NameOf(e, s) && UsesType(s) && e.elementType == Any
    {
      FindsAnother(app, o, tree, k, j, s, custom);
    }
    NoEarlierMatch(app, k, WantedBy(asked, custom));
  }

  lemma NoEarlierMatch(app: Element, k: nat, wanted: Element -> bool)
    requires 0 < k < |Preorder(app)|
    ensures |Filter(app, Earlier(app, k), wanted)| == 0 <==> forall j :: 0 < j < k ==> !wanted(Nth(app, j))
  {
    var f := Filter(app, Earlier(app, k), wanted);
    forall j | 0 < j < k ensures Preorder(app)[j] in f <==> wanted(Nth(app, j)) {
      assert Earlier(app, k)[j - 1] == Preorder(app)[j];
    }
    if f != [] {
      assert f[0] in Earlier(app, k);
      var i :| 0 <= i < k - 1 && Earlier(app, k)[i] == f[0];
      assert Preorder(app)[i + 1] in f;
    }
  }

  // ---- Suggestions by text -----------------------------------------------------------------------------------

  predicate Shows(e: Element, text: string) {
    e.labelText == text || e.value == Text(text) || e.title == text || e.placeholder == Some(text)
  }

  lemma FitsByText(text: string, e: Element, custom: Custom)
    ensures Fits(NO_CRITERIA.(text := Some(text)), e, custom) <==> Shows(e, text)
  {
  }

  lemma ResolvesByText(app: Element, k: nat, text: string, custom: Custom)
    requires k < |Preorder(app)| && Shows(Nth(app, k), text)
    ensures Resolve(app, NO_CRITERIA.(text := Some(text)), custom) == Element_(Preorder(app)[k]) <==>
      k > 0 && forall j :: 0 < j < k ==> !Shows(Nth(app, j), text)
  {
    var asked := NO_CRITERIA.(text := Some(text));
    ResolvesTo(app, asked, custom, k);
    FitsByText(text, Nth(app, k), custom);
    if k > 0 {
      forall j | 0 < j < k ensures WantedBy(asked, custom)(Nth(app, j)) <==> Shows(Nth(app, j), text) {
        FitsByText(text, Nth(app, j), custom);
      }
      NoEarlierMatch(app, k, WantedBy(asked, custom));
    }
  }

  lemma TextShape(element: Node, root: Node, s: L.Suggestion)
    requires s in L.Candidates(element, root) && s.strategy.Text_?
    ensures element.value.Text? && L.Build(s) == NO_CRITERIA.(text := Some(element.value.text))
  {
    L.FromItsOwnRule(element, root, s);
  }

  /**
   A suggestion by text counts values only, so its being unique is not enough: it finds its element
   if and only if no element before it shows the text, be it as label, value, title or placeholder.
  */
  lemma TextSuggestionFindsItsElement(
      app: Element, o: Options, tree: Node, k: nat, s: L.Suggestion, custom: Custom, double: string -> Option<int>)
    requires Serialize(app, o) == Some(tree) && IsWhole(app, o)
    requires k < |IterNodes(tree)|
    requires s in L.Candidates(IterNodes(tree)[k], tree) && s.strategy.Text_?
    ensures |IterNodes(tree)| == |Preorder(app)|
    ensures Nth(app, k).value.Text?
    ensures Execute(app, s, custom, double) == Element_(Preorder(app)[k]) <==>
      k > 0 && forall j :: 0 < j < k ==> !Shows(Nth(app, j), Nth(app, k).value.text)
  {
    WholeWalk(app, o, tree);
    var n := IterNodes(tree)[k];
    assert Flat(n).value == n.value;
    TextShape(n, tree, s);
    ExecuteResolves(app, s, custom, double);
    ResolvesByText(app, k, n.value.text, custom);
  }
}
