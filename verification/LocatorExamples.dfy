/** Snapshots for which a suggestion does not lead back to its element, and one for which it does. */
module LocatorExamples {
  import opened Wrappers
  import opened ElementTypes
  import opened Snapshot
  import opened PythonText
  import opened Selectors
  import opened Resolver
  import opened Execution
  import opened LocatorSoundness
  import opened IndexSoundness
  import L = Locators

  const FRAME := Rect(0.0, 0.0, 10.0, 10.0)

  const WIDE := Options(1, true, FRAME)

  /** An application with two elements on its screen. */
  function Pair(a: Element, b: Element): Element {
    Element(Application, "", "", NoValue, "", None, true, false, FRAME, [a, b])
  }

  /** All that the theorems about suggestions ask for. */
  ghost predicate Suggested(app: Element, o: Options, tree: Node, k: nat, s: L.Suggestion) {
    && Serialize(app, o) == Some(tree) && IsWhole(app, o)
    && k < |IterNodes(tree)| && s in L.Candidates(IterNodes(tree)[k], tree)
  }

  lemma PairIsWhole(a: Element, b: Element)
    requires a.children == [] && b.children == []
    ensures IsWhole(Pair(a, b), WIDE)
  {
    var app := Pair(a, b);
    forall at | At(app, at).Some? ensures Kept(app, at, 0, WIDE) {
      assert at != [] ==> At(app.children[at[0]], at[1..]).Some? && at[1..] == [];
    }
  }

  lemma PreorderOfLeaf(e: Element)
    requires e.children == []
    ensures Preorder(e) == [[]]
  {
  }

  lemma PreorderOfPair(a: Element, b: Element)
    requires a.children == [] && b.children == []
    ensures Preorder(Pair(a, b)) == [[], [0], [1]]
  {
    var app := Pair(a, b);
    PreorderOfLeaf(a);
    PreorderOfLeaf(b);
    assert PreorderFrom(app, 2) == [];
    BelowOne(1);
    assert PreorderFrom(app, 1) == [[1]] + PreorderFrom(app, 2);
    BelowOne(0);
    assert PreorderFrom(app, 0) == [[0]] + PreorderFrom(app, 1);
  }

  lemma BelowOne(i: nat)
    ensures Below(i, [[]]) == [[i]]
  {
    assert [i] + [] == [i];
    assert Below(i, [[]])[0] == [i];
  }

  /** The snapshot of the two: three nodes, which say what the elements do. */
  lemma SnapshotOfPair(a: Element, b: Element) returns (tree: Node)
    requires a.children == [] && b.children == []
    ensures var app := Pair(a, b);
      && Serialize(app, WIDE) == Some(tree) && IsWhole(app, WIDE) && Preorder(app) == [[], [0], [1]]
      && Nth(app, 0) == app && Nth(app, 1) == a && Nth(app, 2) == b
      && |IterNodes(tree)| == 3
      && forall k :: 0 <= k < 3 ==> Says(IterNodes(tree)[k], Nth(app, k))
  {
    var app := Pair(a, b);
    PairIsWhole(a, b);
    PreorderOfPair(a, b);
    tree := Serialize(app, WIDE).value;
    WholeWalk(app, WIDE, tree);
    assert At(app, [0]) == Some(a) && At(app, [1]) == Some(b);
    forall k | 0 <= k < 3 ensures Says(IterNodes(tree)[k], Nth(app, k)) {
      var n := IterNodes(tree)[k];
      assert Flat(n).identifier == n.identifier && Flat(n).labelText == n.labelText && Flat(n).typeName == n.typeName;
    }
  }

  predicate Says(n: Node, e: Element) {
    n.identifier == e.identifier && n.labelText == e.labelText && n.typeName == NameFor(e.elementType)
  }

  lemma CountOfThree(nodes: seq<Node>, w: L.Wanted)
    requires |nodes| == 3 && !L.Is(nodes[0], w) && !L.Is(nodes[1], w) && L.Is(nodes[2], w)
    ensures L.Count(nodes, w) == 1
  {
    assert nodes[..2][..1] == nodes[..1] && nodes[..1][..0] == [];
    assert L.Count(nodes[..1], w) == 0;
    assert L.Count(nodes[..2], w) == 0;
  }

  lemma StrippedSpace()
    ensures Strip(" a") == "a" && Strip("a") == "a"
  {
    assert LeftStrip("a") == "a" && LeftStrip(" a") == "a" by { assert " a"[1..] == "a"; }
    assert RightStrip("a") == "a";
  }

  lemma UniqueId(root: Node, n: Node) returns (s: L.Suggestion)
    requires Strip(n.identifier) == "a" && L.Only(root, L.ANYTHING.(identifier := Some("a")))
    ensures s in L.Candidates(n, root) && s.strategy == L.AccessibilityId && s.unique
    ensures s == L.Suggestion(L.AccessibilityId, L.MAX_SCORE, true, L.Lookup("id", "a"), NO_CRITERIA.(identifier := Some("a")), None)
  {
    s := L.Suggestion(L.AccessibilityId, L.MAX_SCORE, true, L.Lookup("id", "a"), NO_CRITERIA.(identifier := Some("a")), None);
    assert L.ById(root, "a", n.typeName)[0] == s;
    L.FromItsOwnRule(n, root, s);
  }

  lemma TheOnlyTrimmedOne(app: Element, tree: Node, custom: Custom, double: string -> Option<int>) returns (s: L.Suggestion)
    requires Serialize(app, WIDE) == Some(tree) && IsWhole(app, WIDE) && |Preorder(app)| == 3 && |IterNodes(tree)| == 3
    requires forall k :: 0 <= k < 3 ==> Says(IterNodes(tree)[k], Nth(app, k))
    requires Nth(app, 0).identifier == "" && Nth(app, 1).identifier == " a" && Nth(app, 2).identifier == "a"
    ensures Suggested(app, WIDE, tree, 1, s) && Suggested(app, WIDE, tree, 2, s) && s.strategy == L.AccessibilityId && s.unique
    ensures Execute(app, s, custom, double) == Element_(Preorder(app)[2])
  {
    var nodes := IterNodes(tree);
    StrippedSpace();
    assert Says(nodes[0], Nth(app, 0)) && Says(nodes[1], Nth(app, 1)) && Says(nodes[2], Nth(app, 2));
    CountOfThree(nodes, L.ANYTHING.(identifier := Some("a")));
    s := UniqueId(tree, nodes[1]);
    var t := UniqueId(tree, nodes[2]);
    UniqueSuggestionFindsItsElement(app, WIDE, tree, 2, s, custom, double);
  }

  /**
   Of two elements with the identifiers ` a` and `a`, both get the unique suggestion `page.get_by_id("a")`,
   and executing it finds the second.
  */
  lemma UntrimmedNameFindsAnother(a: Element, b: Element, custom: Custom, double: string -> Option<int>)
    returns (tree: Node, s: L.Suggestion)
    requires a.children == [] && b.children == [] && a.identifier == " a" && b.identifier == "a"
    ensures var app := Pair(a, b);
      && Suggested(app, WIDE, tree, 1, s) && Suggested(app, WIDE, tree, 2, s) && s.strategy == L.AccessibilityId && s.unique
      && |Preorder(app)| == 3 && Nth(app, 1) == a && Nth(app, 2) == b
      && Execute(app, s, custom, double) == Element_(Preorder(app)[2]) && Preorder(app)[1] != Preorder(app)[2]
  {
    tree := SnapshotOfPair(a, b);
    s := TheOnlyTrimmedOne(Pair(a, b), tree, custom, double);
  }

  /** The index suggestion of a snapshot's node exists, and is the count of the nodes before it that print the same type. */
  lemma ByItsIndex(app: Element, o: Options, tree: Node, k: nat) returns (s: L.Suggestion)
    requires Serialize(app, o) == Some(tree) && IsWhole(app, o) && k < |IterNodes(tree)|
    ensures Suggested(app, o, tree, k, s) && s.strategy.Index?
  {
    IndexIsCounted(app, o, tree, k);
    s := L.ByIndex(tree, IterNodes(tree)[k])[0];
    L.FromItsOwnRule(IterNodes(tree)[k], tree, s);
  }

  /** Of an element of a type the mapper does not list and one of type `other`, the index suggestion does not find the second. */
  lemma UnlistedSpoilsTheIndex(a: Element, b: Element, custom: Custom, double: string -> Option<int>)
    returns (tree: Node, s: L.Suggestion)
    requires a.children == [] && b.children == [] && a.elementType.Unlisted? && b.elementType == Other
    ensures var app := Pair(a, b);
      && Suggested(app, WIDE, tree, 2, s) && s.strategy.Index? && |Preorder(app)| == 3 && Nth(app, 2) == b
      && Execute(app, s, custom, double) != Element_(Preorder(app)[2])
  {
    tree := SnapshotOfPair(a, b);
    s := ByItsIndex(Pair(a, b), WIDE, tree, 2);
    FindableByIndex(Pair(a, b));
    IndexSuggestionFindsItsElement(Pair(a, b), WIDE, tree, 2, s, custom, double);
  }

  lemma FindableByIndex(app: Element)
    requires |Preorder(app)| == 3 && app.elementType == Application
    ensures Nth(app, 2).elementType == Button ==> IndexFindable(app, 2)
    ensures Nth(app, 1).elementType.Unlisted? && Nth(app, 2).elementType == Other ==> !IndexFindable(app, 2)
  {
    TypeNameRoundTrip(Application);
    TypeNameRoundTrip(Button);
  }

  /** A button after another element is found by its index. */
  lemma ButtonByIndex(a: Element, b: Element, custom: Custom, double: string -> Option<int>)
    returns (tree: Node, s: L.Suggestion)
    requires a.children == [] && b.children == [] && b.elementType == Button
    ensures var app := Pair(a, b);
      && Suggested(app, WIDE, tree, 2, s) && s.strategy.Index? && |Preorder(app)| == 3 && Nth(app, 2) == b
      && Execute(app, s, custom, double) == Element_(Preorder(app)[2])
  {
    tree := SnapshotOfPair(a, b);
    s := ByItsIndex(Pair(a, b), WIDE, tree, 2);
    FindableByIndex(Pair(a, b));
    IndexSuggestionFindsItsElement(Pair(a, b), WIDE, tree, 2, s, custom, double);
  }
}
