/**
 A suggestion on the agent: it is built, sent, decoded and resolved against the tree the snapshot
 was taken of. Which element that finds is a matter of how many matches come before it.
*/
module Execution {
  import opened Wrappers
  import opened JsonValues
  import opened Snapshot
  import opened Hierarchy
  import opened Selectors
  import opened Resolver
  import Locators

  /** What becomes of a suggestion on the agent. */
  function Execute(app: Element, s: Locators.Suggestion, custom: Custom, double: string -> Option<int>): Resolved {
    match Decode(Object(WireForm(Locators.Build(s))), double)
    case Selected(selector) => Resolve(app, selector, custom)
    case _ => Failure
  }

  lemma ExecuteResolves(app: Element, s: Locators.Suggestion, custom: Custom, double: string -> Option<int>)
    requires Transmissible(Locators.Build(s))
    ensures Execute(app, s, custom, double) == Resolve(app, Locators.Build(s), custom)
  {
    SelectorRoundTrip(Locators.Build(s), double);
  }

  // ---- A snapshot with nothing left out ------------------------------------------------------------

  /** Neither pruned nor truncated. */
  ghost predicate IsWhole(app: Element, o: Options) {
    forall a :: At(app, a).Some? ==> Kept(app, a, 0, o)
  }

  function Nth(app: Element, k: nat): Element
    requires k < |Preorder(app)|
  {
    AllAddressesLead(app);
    At(app, Preorder(app)[k]).value
  }

  lemma {:induction false} AllAreKept(app: Element, addresses: seq<Address>, o: Options)
    requires forall a <- addresses :: At(app, a).Some?
    requires IsWhole(app, o)
    ensures KeptAmong(app, addresses, 0, o) == addresses
    decreases |addresses|
  {
    if addresses != [] { AllAreKept(app, addresses[1..], o); }
  }

  /** The walk over a whole snapshot describes every element, in pre-order. */
  lemma WholeWalk(app: Element, o: Options, tree: Node)
    requires Serialize(app, o) == Some(tree) && IsWhole(app, o)
    ensures |IterNodes(tree)| == |Preorder(app)|
    ensures forall k :: 0 <= k < |Preorder(app)| ==> Flat(IterNodes(tree)[k]) == Describe(Nth(app, k), Preorder(app)[k], o)
  {
    WalkDescribesKept(app, o, tree);
    AllAreKept(app, Preorder(app), o);
  }

  // ---- Where a query finds an element -----------------------------------------------------------------

  lemma {:induction false} FilterAppend(app: Element, xs: seq<Address>, ys: seq<Address>, wanted: Element -> bool)
    requires forall a <- xs :: At(app, a).Some?
    requires forall a <- ys :: At(app, a).Some?
    ensures Filter(app, xs + ys, wanted) == Filter(app, xs, wanted) + Filter(app, ys, wanted)
    decreases |xs|
  {
    if xs == [] {
      assert xs + ys == ys;
    } else {
      assert (xs + ys)[0] == xs[0] && (xs + ys)[1..] == xs[1..] + ys;
      FilterAppend(app, xs[1..], ys, wanted);
      var head := if wanted(At(app, xs[0]).value) then [xs[0]] else [];
      Associate(head, Filter(app, xs[1..], wanted), Filter(app, ys, wanted));
    }
  }

  lemma PositionOfTheOnlyOne(f: seq<Address>, g: seq<Address>, a: Address, h: seq<Address>, present: bool, p: int)
    requires f == g + (if present then [a] else []) + h && a !in g && a !in h
    ensures 0 <= p < |f| && f[p] == a <==> present && p == |g|
  {
  }

  /** A match's position among the matches is the number of matches before it. */
  lemma FilterPosition(app: Element, addresses: seq<Address>, wanted: Element -> bool, i: nat, p: int)
    requires forall a <- addresses :: At(app, a).Some?
    requires Distinct(addresses) && i < |addresses|
    ensures var f := Filter(app, addresses, wanted);
      0 <= p < |f| && f[p] == addresses[i] <==>
        wanted(At(app, addresses[i]).value) && p == |Filter(app, addresses[..i], wanted)|
  {
    var a, before, after := addresses[i], addresses[..i], addresses[i + 1..];
    FilterAround(app, before, a, after, wanted);
    assert addresses == before + ([a] + after);
    assert a !in before && a !in after;
    PositionOfTheOnlyOne(Filter(app, addresses, wanted), Filter(app, before, wanted), a, Filter(app, after, wanted),
                         wanted(At(app, a).value), p);
  }

  lemma Associate(a: seq<Address>, b: seq<Address>, c: seq<Address>)
    ensures a + (b + c) == a + b + c
  {
  }

  lemma FilterOne(app: Element, a: Address, wanted: Element -> bool)
    requires At(app, a).Some?
    ensures Filter(app, [a], wanted) == if wanted(At(app, a).value) then [a] else []
  {
  }

  lemma FilterAround(app: Element, before: seq<Address>, a: Address, after: seq<Address>, wanted: Element -> bool)
    requires At(app, a).Some?
    requires forall b <- before :: At(app, b).Some?
    requires forall b <- after :: At(app, b).Some?
    ensures Filter(app, before + ([a] + after), wanted) ==
      Filter(app, before, wanted) + (if wanted(At(app, a).value) then [a] else []) + Filter(app, after, wanted)
  {
    var f, h := Filter(app, [a], wanted), Filter(app, after, wanted);
    FilterAppend(app, before, [a] + after, wanted);
    FilterAppend(app, [a], after, wanted);
    FilterOne(app, a, wanted);
    Associate(Filter(app, before, wanted), f, h);
  }

  /** The elements after the root that come before the k-th. */
  function Earlier(app: Element, k: nat): (r: seq<Address>)
    requires 0 < k <= |Preorder(app)|
    ensures forall a <- r :: At(app, a).Some?
  {
    AllAddressesLead(app);
    Preorder(app)[1..k]
  }

  lemma RootHasAllDescendants(app: Element)
    ensures Descendants(app, []) == Preorder(app)[1..]
  {
    var below := Preorder(app)[1..];
    assert forall i :: 0 <= i < |below| ==> [] + below[i] == below[i];
  }

  lemma ResolveAtRoot(app: Element, s: Selector, custom: Custom)
    requires s.parent.None?
    ensures forall a <- Preorder(app)[1..] :: At(app, a).Some?
    ensures var f := Filter(app, Preorder(app)[1..], WantedBy(s, custom));
      var i := if s.index.Some? then s.index.value else 0;
      Resolve(app, s, custom) == if 0 <= i < |f| then Element_(f[i]) else Missing
  {
    AllAddressesLead(app);
    RootHasAllDescendants(app);
  }

  /** A selector without a parent finds an element by how many matches come before it, the root not counting. */
  lemma ResolvesTo(app: Element, s: Selector, custom: Custom, k: nat)
    requires s.parent.None? && k < |Preorder(app)|
    ensures Resolve(app, s, custom) == Element_(Preorder(app)[k]) <==>
      && k > 0 && Fits(s, Nth(app, k), custom)
      && (if s.index.Some? then s.index.value else 0) == |Filter(app, Earlier(app, k), WantedBy(s, custom))|
  {
    ResolveAtRoot(app, s, custom);
    FoundAmongDescendants(app, WantedBy(s, custom), k, if s.index.Some? then s.index.value else 0);
  }

  lemma FoundAmongDescendants(app: Element, wanted: Element -> bool, k: nat, i: int)
    requires k < |Preorder(app)|
    ensures forall a <- Preorder(app)[1..] :: At(app, a).Some?
    ensures var f := Filter(app, Preorder(app)[1..], wanted);
      0 <= i < |f| && f[i] == Preorder(app)[k] <==>
        k > 0 && wanted(Nth(app, k)) && i == |Filter(app, Earlier(app, k), wanted)|
  {
    var below := Preorder(app)[1..];
    AllAddressesLead(app);
    PreorderIsDistinct(app);
    if k == 0 {
      assert Preorder(app)[0] !in below;
      var f := Filter(app, below, wanted);
      assert 0 <= i < |f| ==> f[i] in below;
    } else {
      assert below[k - 1] == Preorder(app)[k] && below[..k - 1] == Earlier(app, k);
      FilterPosition(app, below, wanted, k - 1, i);
    }
  }
}
