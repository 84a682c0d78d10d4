/** When an index suggestion leads back to its element, and what the best suggestion is worth. */
module IndexSoundness {
  import opened Wrappers
  import opened ElementTypes
  import opened Snapshot
  import opened Hierarchy
  import opened Selectors
  import opened Resolver
  import opened Execution
  import opened LocatorSoundness
  import L = Locators

  // ---- The index the Inspector gives ---------------------------------------------------------------

  lemma {:induction false} SameTypeAppend(xs: seq<Node>, ys: seq<Node>, typeName: string)
    ensures L.SameType(xs + ys, typeName) == L.SameType(xs, typeName) + L.SameType(ys, typeName)
    decreases |xs|
  {
    if xs == [] {
      assert xs + ys == ys;
    } else {
      assert (xs + ys)[0] == xs[0] && (xs + ys)[1..] == xs[1..] + ys;
      SameTypeAppend(xs[1..], ys, typeName);
      var head := if xs[0].typeName == typeName then [xs[0]] else [];
      var rest, more := L.SameType(xs[1..], typeName), L.SameType(ys, typeName);
      assert head + (rest + more) == head + rest + more;
    }
  }

  lemma {:induction false} SameTypeMembers(nodes: seq<Node>, typeName: string)
    ensures forall n <- L.SameType(nodes, typeName) :: n in nodes
    decreases |nodes|
  {
    if nodes != [] { SameTypeMembers(nodes[1..], typeName); }
  }

  lemma {:induction false} FirstAtIs(nodes: seq<Node>, path: string, i: nat, m: nat)
    requires i <= m < |nodes| && nodes[m].path == path
    requires forall j :: i <= j < m ==> nodes[j].path != path
    ensures L.FirstAt(nodes, path, i) == Some(m)
    decreases m - i
  {
    if i < m { FirstAtIs(nodes, path, i + 1, m); }
  }

  lemma FirstAmongSameType(nodes: seq<Node>, k: nat)
    requires k < |nodes|
    requires forall j :: 0 <= j < k ==> nodes[j].path != nodes[k].path
    ensures L.FirstAt(L.SameType(nodes, nodes[k].typeName), nodes[k].path, 0) == Some(|L.SameType(nodes[..k], nodes[k].typeName)|)
  {
    var n, typeName, before := nodes[k], nodes[k].typeName, L.SameType(nodes[..k], nodes[k].typeName);
    assert nodes == nodes[..k] + ([n] + nodes[k + 1..]);
    SameTypeAppend(nodes[..k], [n] + nodes[k + 1..], typeName);
    SameTypeAppend([n], nodes[k + 1..], typeName);
    SameTypeMembers(nodes[..k], typeName);
    var all := L.SameType(nodes, typeName);
    assert all[|before|] == n;
    forall j | 0 <= j < |before| ensures all[j].path != n.path {
      assert all[j] == before[j] && before[j] in nodes[..k];
    }
    FirstAtIs(all, n.path, 0, |before|);
  }

  // ---- Counting on both sides ---------------------------------------------------------------------------

  function CountBefore(app: Element, k: nat, which: Element -> bool): nat
    requires k <= |Preorder(app)|
  {
    if k == 0 then 0 else CountBefore(app, k - 1, which) + if which(Nth(app, k - 1)) then 1 else 0
  }

  function Prints(typeName: string): Element -> bool {
    (e: Element) => NameFor(e.elementType) == typeName
  }

  lemma {:induction false} SameTypeIsCounted(app: Element, nodes: seq<Node>, o: Options, k: nat, typeName: string)
    requires |nodes| == |Preorder(app)| && k <= |nodes|
    requires forall j :: 0 <= j < |nodes| ==> Flat(nodes[j]) == Describe(Nth(app, j), Preorder(app)[j], o)
    ensures |L.SameType(nodes[..k], typeName)| == CountBefore(app, k, Prints(typeName))
    decreases k
  {
    if k > 0 {
      SameTypeIsCounted(app, nodes, o, k - 1, typeName);
      assert nodes[..k] == nodes[..k - 1] + [nodes[k - 1]];
      SameTypeAppend(nodes[..k - 1], [nodes[k - 1]], typeName);
      assert Flat(nodes[k - 1]).typeName == nodes[k - 1].typeName;
    }
  }

  lemma {:induction false} FilterIsCounted(app: Element, k: nat, wanted: Element -> bool)
    requires 0 < k <= |Preorder(app)|
    ensures |Filter(app, Earlier(app, k), wanted)| + (if wanted(Nth(app, 0)) then 1 else 0) == CountBefore(app, k, wanted)
    decreases k
  {
    if k == 1 {
      assert Earlier(app, 1) == [];
    } else {
      FilterIsCounted(app, k - 1, wanted);
      assert Earlier(app, k) == Earlier(app, k - 1) + [Preorder(app)[k - 1]];
      AllAddressesLead(app);
      FilterAppend(app, Earlier(app, k - 1), [Preorder(app)[k - 1]], wanted);
    }
  }

  /** The wider of two counts is no smaller, and equal exactly when it counts nothing more. */
  lemma {:induction false} WiderCount(app: Element, k: nat, narrow: Element -> bool, wide: Element -> bool)
    requires k <= |Preorder(app)| && forall e :: narrow(e) ==> wide(e)
    ensures CountBefore(app, k, narrow) <= CountBefore(app, k, wide)
    ensures CountBefore(app, k, narrow) == CountBefore(app, k, wide) <==> forall j :: 0 <= j < k && wide(Nth(app, j)) ==> narrow(Nth(app, j))
    decreases k
  {
    if k > 0 { WiderCount(app, k - 1, narrow, wide); }
  }

  lemma {:induction false} CountAll(app: Element, k: nat, which: Element -> bool)
    requires k <= |Preorder(app)| && forall e :: which(e)
    ensures CountBefore(app, k, which) == k
    decreases k
  {
    if k > 0 { CountAll(app, k - 1, which); }
  }

  function Not(which: Element -> bool): Element -> bool {
    (e: Element) => !which(e)
  }

  lemma {:induction false} CountOthers(app: Element, k: nat, which: Element -> bool)
    requires k <= |Preorder(app)|
    ensures CountBefore(app, k, which) + CountBefore(app, k, Not(which)) == k
    decreases k
  {
    if k > 0 { CountOthers(app, k - 1, which); }
  }

  // ---- Index suggestions ----------------------------------------------------------------------------------

  /** All the Inspector's numbers are below this; so is every index a double holds exactly. */
  const EXACT := 0x20_0000_0000_0000

  /**
   When the index suggestion finds its element. The element is not the root, and its type is one the
   mapper lists. For a type other than `any`: the root, which the agent does not count, has another
   type name, and no type the mapper does not list passes for `Other` before it. For `any`, which the
   agent takes for every type: of the elements before it exactly one, such as the root, has another type.
  */
  ghost predicate IndexFindable(app: Element, k: nat)
    requires k < |Preorder(app)|
  {
    var t := Nth(app, k).elementType;
    && k > 0 && !t.Unlisted?
    && if t == Any then CountBefore(app, k, Not(Prints(NameFor(Any)))) == 1
       else NameFor(app.elementType) != NameFor(t) && (t == Other ==> forall j :: 0 < j < k ==> !Nth(app, j).elementType.Unlisted?)
  }

  function OfType(typeName: string, index: nat): Selector {
    NO_CRITERIA.(elementType := Some(typeName), index := Some(index))
  }

  /** The agent's query by type and the Inspector's list of one type, before the k-th element. */
  lemma SameCount(app: Element, k: nat, index: nat, custom: Custom)
    requires 0 < k < |Preorder(app)| && !Nth(app, k).elementType.Unlisted?
    ensures var name := NameFor(Nth(app, k).elementType);
      |Filter(app, Earlier(app, k), WantedBy(OfType(name, index), custom))| == CountBefore(app, k, Prints(name)) <==> IndexFindable(app, k)
  {
    if Nth(app, k).elementType == Any { SameCountOfAny(app, k, index, custom); } else { SameCountOfOneType(app, k, index, custom); }
  }

  lemma SameCountOfAny(app: Element, k: nat, index: nat, custom: Custom)
    requires 0 < k < |Preorder(app)| && Nth(app, k).elementType == Any
    ensures |Filter(app, Earlier(app, k), WantedBy(OfType(NameFor(Any), index), custom))| == CountBefore(app, k, Prints(NameFor(Any)))
      <==> CountBefore(app, k, Not(Prints(NameFor(Any)))) == 1
  {
    var wanted := WantedBy(OfType(NameFor(Any), index), custom);
    FilterIsCounted(app, k, wanted);
    TypeNameRoundTrip(Any);
    CountAll(app, k, wanted);
    CountOthers(app, k, Prints(NameFor(Any)));
  }

  lemma SameCountOfOneType(app: Element, k: nat, index: nat, custom: Custom)
    requires 0 < k < |Preorder(app)| && !Nth(app, k).elementType.Unlisted? && Nth(app, k).elementType != Any
    ensures var name := NameFor(Nth(app, k).elementType);
      |Filter(app, Earlier(app, k), WantedBy(OfType(name, index), custom))| == CountBefore(app, k, Prints(name)) <==> IndexFindable(app, k)
  {
    var t := Nth(app, k).elementType;
    var wanted, prints := WantedBy(OfType(NameFor(t), index), custom), Prints(NameFor(t));
    FilterIsCounted(app, k, wanted);
    TypeNameRoundTrip(t);
    assert Nth(app, 0) == app;
    assert forall e :: wanted(e) <==> e.elementType == t;
    WiderCount(app, k, wanted, prints);
    OnlyOtherIsSharedWithUnlisted(t);
  }

  lemma OnlyOtherIsSharedWithUnlisted(t: ElementType)
    requires !t.Unlisted?
    ensures forall u :: NameFor(u) == NameFor(t) <==> u == t || (t == Other && u.Unlisted?)
  {
    forall u ensures NameFor(u) == NameFor(t) <==> u == t || (t == Other && u.Unlisted?) {
      TypeNameRoundTrip(t);
      TypeNameRoundTrip(u);
      if u.Unlisted? { UnlistedPassesForOther(u); }
    }
  }

  lemma IndexShape(element: Node, root: Node, s: L.Suggestion)
    requires s in L.Candidates(element, root) && s.strategy.Index?
    ensures L.IndexAmongSiblingsOfType(root, element).Some?
    ensures L.Build(s) == OfType(element.typeName, L.IndexAmongSiblingsOfType(root, element).value)
  {
    L.FromItsOwnRule(element, root, s);
  }

  /** The index of a node of a whole snapshot: how many nodes before it print the same type. */
  lemma IndexIsCounted(app: Element, o: Options, tree: Node, k: nat)
    requires Serialize(app, o) == Some(tree) && IsWhole(app, o) && k < |IterNodes(tree)|
    ensures |IterNodes(tree)| == |Preorder(app)|
    ensures L.IndexAmongSiblingsOfType(tree, IterNodes(tree)[k]) == Some(CountBefore(app, k, Prints(NameFor(Nth(app, k).elementType))))
  {
    WholeWalk(app, o, tree);
    var nodes, n := IterNodes(tree), IterNodes(tree)[k];
    assert Flat(n).typeName == n.typeName;
    forall j | 0 <= j < k ensures nodes[j].path != n.path {
      if nodes[j].path == n.path { PathsAreDistinct(app, o, tree, j, k); }
    }
    FirstAmongSameType(nodes, k);
    SameTypeIsCounted(app, nodes, o, k, n.typeName);
  }

  lemma CountIsBounded(app: Element, k: nat, which: Element -> bool)
    requires k <= |Preorder(app)|
    ensures CountBefore(app, k, which) <= k
  {
    CountOthers(app, k, which);
  }

  /** Soundness of the index suggestion, on a snapshot with nothing left out: it finds its element if and only if that is findable by index. */
  lemma IndexSuggestionFindsItsElement(
      app: Element, o: Options, tree: Node, k: nat, s: L.Suggestion, custom: Custom, double: string -> Option<int>)
    requires Serialize(app, o) == Some(tree) && IsWhole(app, o)
    requires k < |IterNodes(tree)| <= EXACT
    requires s in L.Candidates(IterNodes(tree)[k], tree) && s.strategy.Index?
    ensures |IterNodes(tree)| == |Preorder(app)|
    ensures Execute(app, s, custom, double) == Element_(Preorder(app)[k]) <==> IndexFindable(app, k)
  {
    WholeWalk(app, o, tree);
    var t, n := Nth(app, k).elementType, IterNodes(tree)[k];
    assert Flat(n).typeName == n.typeName;
    IndexShape(n, tree, s);
    IndexIsCounted(app, o, tree, k);
    CountIsBounded(app, k, Prints(NameFor(t)));
    SmallNumbersAreDoubles(CountBefore(app, k, Prints(NameFor(t))));
    ExecuteResolves(app, s, custom, double);
    ResolvesByIndex(app, k, custom);
  }

  lemma ResolvesByIndex(app: Element, k: nat, custom: Custom)
    requires k < |Preorder(app)|
    ensures var name := NameFor(Nth(app, k).elementType);
      Resolve(app, OfType(name, CountBefore(app, k, Prints(name))), custom) == Element_(Preorder(app)[k])
      <==> IndexFindable(app, k)
  {
    var t := Nth(app, k).elementType;
    var index := CountBefore(app, k, Prints(NameFor(t)));
    ResolvesTo(app, OfType(NameFor(t), index), custom, k);
    TypeNameRoundTrip(t);
    FitsByType(t, index, Nth(app, k), custom);
    if k > 0 && !t.Unlisted? { SameCount(app, k, index, custom); }
  }

  lemma FitsByType(t: ElementType, index: nat, e: Element, custom: Custom)
    ensures Fits(OfType(NameFor(t), index), e, custom) <==> t == Any || e.elementType == (if t.Unlisted? then Other else t)
  {
    TypeNameRoundTrip(t);
  }

  // ---- The best suggestion ----------------------------------------------------------------------------------

  predicate IsSound(s: L.Suggestion) {
    ByName(s.strategy) && s.unique
  }

  lemma Scores(element: Node, root: Node, s: L.Suggestion)
    requires s in L.Candidates(element, root)
    ensures IsSound(s) <==> s.score >= 4 && s.unique
    ensures s.score > 4 ==> s.unique
  {
    L.FromItsOwnRule(element, root, s);
  }

  /** If any suggestion by name is unique, the best suggestion is one of these. */
  lemma BestIsSound(element: Node, root: Node, best: L.Suggestion, sound: L.Suggestion)
    requires best in L.Candidates(element, root) && forall other <- L.Candidates(element, root) :: !L.Before(other, best)
    requires sound in L.Candidates(element, root) && IsSound(sound)
    ensures IsSound(best)
  {
    Scores(element, root, best);
    Scores(element, root, sound);
  }

  /**
   The best suggestion for a node of a whole snapshot, executed. Where some unique suggestion by name
   exists, and the node is findable by the strategy that is ranked best, the agent finds its element.
  */
  method FindByBestLocator(
      app: Element, o: Options, tree: Node, k: nat, ghost sound: L.Suggestion, custom: Custom, double: string -> Option<int>)
    returns (best: L.Suggestion, found: Resolved)
    requires Serialize(app, o) == Some(tree) && IsWhole(app, o) && k < |IterNodes(tree)|
    requires sound in L.Candidates(IterNodes(tree)[k], tree) && IsSound(sound)
    ensures |IterNodes(tree)| == |Preorder(app)| && IsSound(best)
    ensures found == Element_(Preorder(app)[k]) <==> Findable(app, k, best.strategy)
  {
    var n := IterNodes(tree)[k];
    var chosen := L.BestLocator(n, tree);
    best := chosen.value;
    BestIsSound(n, tree, best, sound);
    found := Execute(app, best, custom, double);
    UniqueSuggestionFindsItsElement(app, o, tree, k, best, custom, double);
  }
}
