/**
 The snapshot serializer: from an accessibility tree to path-labelled nodes.

 An element of the tree is identified by its address, the child indices that lead to it from the
 root; `Preorder` lists all addresses. What a serialized tree contains is stated by these alone.
*/
module Snapshot {
  import opened Wrappers
  import opened ElementTypes
  import Decimal

  datatype Rect = Rect(x: real, y: real, width: real, height: real)

  datatype Value = NoValue | Text(text: string) | Flag(bool) | Numeric(real)

  datatype Element = Element(
    elementType: ElementType, identifier: string, labelText: string, value: Value, title: string,
    placeholder: Option<string>, enabled: bool, selected: bool, frame: Rect, children: seq<Element>)

  datatype Node = Node(
    typeName: string, identifier: string, labelText: string, value: Value, title: string,
    placeholder: Option<string>, enabled: bool, selected: bool, visible: bool, path: string,
    frame: Rect, children: seq<Node>, truncated: bool)

  datatype Options = Options(maxDepth: int, includeInvisible: bool, screen: Rect)

  predicate Intersects(a: Rect, b: Rect) {
    a.x < b.x + b.width && b.x < a.x + a.width && a.y < b.y + b.height && b.y < a.y + a.height
  }

  predicate IsVisible(frame: Rect, screen: Rect) {
    && frame.width > 0.0 && frame.height > 0.0
    && (screen.width <= 0.0 || screen.height <= 0.0 || Intersects(frame, screen))
  }

  predicate Inside(r: Rect, x: real, y: real) {
    r.x < x < r.x + r.width && r.y < y < r.y + r.height
  }

  /** A frame is visible if and only if it has an inside, and that shares a point with the inside of the screen, if the screen has one. */
  lemma VisibleMeansOnScreen(frame: Rect, screen: Rect)
    ensures IsVisible(frame, screen) <==>
      && frame.width > 0.0 && frame.height > 0.0
      && (screen.width > 0.0 && screen.height > 0.0 ==> exists x, y :: Inside(frame, x, y) && Inside(screen, x, y))
  {
    if frame.width > 0.0 && frame.height > 0.0 && screen.width > 0.0 && screen.height > 0.0 && Intersects(frame, screen) {
      var x := Between(frame.x, frame.width, screen.x, screen.width);
      var y := Between(frame.y, frame.height, screen.y, screen.height);
      assert Inside(frame, x, y) && Inside(screen, x, y);
    }
  }

  /** A point strictly inside two intervals that overlap. */
  lemma Between(a: real, m: real, b: real, n: real) returns (x: real)
    requires m > 0.0 && n > 0.0 && a < b + n && b < a + m
    ensures a < x < a + m && b < x < b + n
  {
    var left := if a < b then b else a;
    var right := if a + m < b + n then a + m else b + n;
    x := (left + right) / 2.0;
  }

  // ---- Serializing ----------------------------------------------------------------------------

  function NodeAt(e: Element, path: string, depth: nat, o: Options): Option<Node>
    decreases e, 1, 0
  {
    var visible := IsVisible(e.frame, o.screen);
    if !visible && !o.includeInvisible then None
    else Some(Node(
      NameFor(e.elementType), e.identifier, e.labelText, e.value, e.title, e.placeholder,
      e.enabled, e.selected, visible, path, e.frame,
      if depth < o.maxDepth then ChildNodes(e, 0, path, depth + 1, o) else [],
      depth >= o.maxDepth && e.children != []))
  }

  /** `enumerated().compactMap`: indices count all children, those filtered out included. */
  function ChildNodes(e: Element, i: nat, path: string, depth: nat, o: Options): seq<Node>
    requires i <= |e.children|
    decreases e, 0, |e.children| - i
  {
    if i == |e.children| then []
    else
      var child := NodeAt(e.children[i], path + "." + Decimal.Print(i), depth, o);
      (if child.Some? then [child.value] else []) + ChildNodes(e, i + 1, path, depth, o)
  }

  function Serialize(e: Element, o: Options): Option<Node> {
    NodeAt(e, "0", 0, o)
  }

  /** The Inspector's depth-first walk. */
  function IterNodes(n: Node): seq<Node>
    decreases n, 1, 0
  {
    [n] + IterFrom(n, 0)
  }

  function IterFrom(n: Node, i: nat): seq<Node>
    requires i <= |n.children|
    decreases n, 0, |n.children| - i
  {
    if i == |n.children| then [] else IterNodes(n.children[i]) + IterFrom(n, i + 1)
  }

  function IterAll(ns: seq<Node>): seq<Node> {
    if ns == [] then [] else IterNodes(ns[0]) + IterAll(ns[1..])
  }

  lemma {:induction false} IterFromIsAll(n: Node, i: nat)
    requires i <= |n.children|
    ensures IterFrom(n, i) == IterAll(n.children[i..])
    decreases |n.children| - i
  {
    if i < |n.children| { IterFromIsAll(n, i + 1); }
  }

  // ---- Addresses --------------------------------------------------------------------------------

  type Address = seq<nat>

  function At(e: Element, a: Address): Option<Element>
    decreases |a|
  {
    if a == [] then Some(e)
    else if a[0] < |e.children| then At(e.children[a[0]], a[1..])
    else None
  }

  /** The address as the serializer prints it. */
  function PathText(a: Address): string {
    if a == [] then "0" else PathText(a[..|a| - 1]) + "." + Decimal.Print(a[|a| - 1])
  }

  function Below(i: nat, addresses: seq<Address>): seq<Address> {
    seq(|addresses|, k requires 0 <= k < |addresses| => [i] + addresses[k])
  }

  /** Every address of the tree, parents before children, children in order. */
  function Preorder(e: Element): seq<Address>
    decreases e, 1, 0
  {
    [[]] + PreorderFrom(e, 0)
  }

  function PreorderFrom(e: Element, i: nat): seq<Address>
    requires i <= |e.children|
    decreases e, 0, |e.children| - i
  {
    if i == |e.children| then [] else Below(i, Preorder(e.children[i])) + PreorderFrom(e, i + 1)
  }

  lemma {:induction false} PreorderIsComplete(e: Element, a: Address)
    ensures a in Preorder(e) <==> At(e, a).Some?
    decreases |a|
  {
    if a != [] {
      if a[0] < |e.children| { PreorderIsComplete(e.children[a[0]], a[1..]); }
      PreorderFromIsComplete(e, 0, a);
      assert a != [[]][0];
    } else {
      assert Preorder(e)[0] == a;
    }
  }

  lemma {:induction false} PreorderFromIsComplete(e: Element, i: nat, a: Address)
    requires i <= |e.children|
    requires a != [] && a[0] < |e.children| ==> (a[1..] in Preorder(e.children[a[0]]) <==> At(e.children[a[0]], a[1..]).Some?)
    ensures a in PreorderFrom(e, i) <==> a != [] && a[0] >= i && At(e, a).Some?
    decreases |e.children| - i
  {
    if i < |e.children| {
      PreorderFromIsComplete(e, i + 1, a);
      var inner := Preorder(e.children[i]);
      if a != [] && a[0] == i && a[1..] in inner {
        var k :| 0 <= k < |inner| && inner[k] == a[1..];
        assert Below(i, inner)[k] == a;
      }
      if a in Below(i, inner) {
        var k :| 0 <= k < |inner| && Below(i, inner)[k] == a;
        assert a[1..] == inner[k];
      }
    }
  }

  /** Parents before children, and earlier children, with all that is below them, before later ones. */
  predicate Precedes(a: Address, b: Address) {
    b != [] && (a == [] || a[0] < b[0] || (a[0] == b[0] && Precedes(a[1..], b[1..])))
  }

  ghost predicate InOrder(addresses: seq<Address>) {
    forall i, j :: 0 <= i < j < |addresses| ==> Precedes(addresses[i], addresses[j])
  }

  lemma {:induction false} PreorderIsInOrder(e: Element)
    ensures InOrder(Preorder(e))
    decreases e, 1, 0
  {
    PreorderFromIsInOrder(e, 0);
    var all, below := Preorder(e), PreorderFrom(e, 0);
    forall i, j | 0 <= i < j < |all| ensures Precedes(all[i], all[j]) {
      assert all[j] == below[j - 1] && below[j - 1] in below;
      if i > 0 { assert all[i] == below[i - 1]; }
    }
  }

  lemma {:induction false} PreorderFromIsInOrder(e: Element, i: nat)
    requires i <= |e.children|
    ensures InOrder(PreorderFrom(e, i)) && forall a <- PreorderFrom(e, i) :: a != [] && a[0] >= i
    decreases e, 0, |e.children| - i
  {
    if i < |e.children| {
      PreorderIsInOrder(e.children[i]);
      PreorderFromIsInOrder(e, i + 1);
      BelowIsInOrder(i, Preorder(e.children[i]));
      InOrderAppend(Below(i, Preorder(e.children[i])), PreorderFrom(e, i + 1), i);
    }
  }

  lemma BelowIsInOrder(i: nat, addresses: seq<Address>)
    requires InOrder(addresses)
    ensures InOrder(Below(i, addresses)) && forall a <- Below(i, addresses) :: a != [] && a[0] == i
  {
    var below := Below(i, addresses);
    forall j, k | 0 <= j < k < |below| ensures Precedes(below[j], below[k]) {
      assert below[j][1..] == addresses[j] && below[k][1..] == addresses[k];
    }
  }

  lemma InOrderAppend(a: seq<Address>, b: seq<Address>, i: nat)
    requires InOrder(a) && InOrder(b)
    requires (forall x <- a :: x != [] && x[0] == i) && (forall x <- b :: x != [] && x[0] > i)
    ensures InOrder(a + b)
  {
    var all := a + b;
    forall j, k | 0 <= j < k < |all| ensures Precedes(all[j], all[k]) {
      if k < |a| {
        assert Precedes(a[j], a[k]);
      } else if j < |a| {
        assert a[j] in a && b[k - |a|] in b;
      } else {
        assert Precedes(b[j - |a|], b[k - |a|]);
      }
    }
  }

  // ---- What is emitted ------------------------------------------------------------------------------

  /** A node without its children. */
  function Flat(n: Node): Node {
    n.(children := [])
  }

  function FlatAll(ns: seq<Node>): seq<Node> {
    seq(|ns|, k requires 0 <= k < |ns| => Flat(ns[k]))
  }

  /** What the node of an element says, given where it is; nothing here depends on `includeInvisible`. */
  function Describe(e: Element, at: Address, o: Options): Node {
    Node(NameFor(e.elementType), e.identifier, e.labelText, e.value, e.title, e.placeholder,
         e.enabled, e.selected, IsVisible(e.frame, o.screen), PathText(at), e.frame, [],
         |at| >= o.maxDepth && e.children != [])
  }

  /** Every element from the root to `a`, both included, is visible. */
  predicate VisibleDownTo(e: Element, a: Address, screen: Rect)
    requires At(e, a).Some?
    decreases |a|
  {
    IsVisible(e.frame, screen) && (a == [] || VisibleDownTo(e.children[a[0]], a[1..], screen))
  }

  /** The rule: no deeper than `maxDepth` below the root, and visible all the way down unless all are included. */
  predicate Kept(e: Element, a: Address, depth: nat, o: Options)
    requires At(e, a).Some?
  {
    && (a == [] || depth + |a| <= o.maxDepth)
    && (o.includeInvisible || VisibleDownTo(e, a, o.screen))
  }

  /** Of the elements at `addresses` in `e`, itself at `at`, the descriptions of those that are kept. */
  function Emitted(e: Element, addresses: seq<Address>, at: Address, o: Options): seq<Node>
    requires forall a <- addresses :: At(e, a).Some?
  {
    if addresses == [] then []
    else
      var a := addresses[0];
      (if Kept(e, a, |at|, o) then [Describe(At(e, a).value, at + a, o)] else []) + Emitted(e, addresses[1..], at, o)
  }

  lemma AllAddressesLead(e: Element)
    ensures forall a <- Preorder(e) :: At(e, a).Some?
    ensures forall a <- PreorderFrom(e, 0) :: At(e, a).Some?
  {
    forall a | a in Preorder(e) ensures At(e, a).Some? { PreorderIsComplete(e, a); }
    assert forall a <- PreorderFrom(e, 0) :: a in Preorder(e);
  }

  lemma {:induction false} EmittedAppend(e: Element, xs: seq<Address>, ys: seq<Address>, at: Address, o: Options)
    requires forall a <- xs :: At(e, a).Some?
    requires forall a <- ys :: At(e, a).Some?
    ensures Emitted(e, xs + ys, at, o) == Emitted(e, xs, at, o) + Emitted(e, ys, at, o)
    decreases |xs|
  {
    if xs == [] {
      assert xs + ys == ys;
    } else {
      assert (xs + ys)[0] == xs[0] && (xs + ys)[1..] == xs[1..] + ys;
      EmittedAppend(e, xs[1..], ys, at, o);
    }
  }

  predicate OpensChildren(e: Element, depth: nat, o: Options) {
    depth < o.maxDepth && (o.includeInvisible || IsVisible(e.frame, o.screen))
  }

  /** What is kept below the i-th child is what the child keeps, one level further down. */
  lemma {:induction false} EmittedBelow(e: Element, i: nat, addresses: seq<Address>, at: Address, o: Options)
    requires i < |e.children| && forall a <- addresses :: At(e.children[i], a).Some?
    ensures forall a <- Below(i, addresses) :: At(e, a).Some?
    ensures Emitted(e, Below(i, addresses), at, o) ==
      if OpensChildren(e, |at|, o) then Emitted(e.children[i], addresses, at + [i], o) else []
    decreases |addresses|
  {
    forall a | a in Below(i, addresses) ensures At(e, a).Some? {
      var k :| 0 <= k < |addresses| && a == Below(i, addresses)[k];
      assert a[1..] == addresses[k];
    }
    if addresses != [] {
      var a := addresses[0];
      assert Below(i, addresses)[0] == [i] + a && Below(i, addresses)[1..] == Below(i, addresses[1..]);
      EmittedBelow(e, i, addresses[1..], at, o);
      KeptBelow(e, i, a, |at|, o);
      assert at + ([i] + a) == (at + [i]) + a;
    }
  }

  lemma KeptBelow(e: Element, i: nat, a: Address, depth: nat, o: Options)
    requires i < |e.children| && At(e.children[i], a).Some?
    ensures At(e, [i] + a) == At(e.children[i], a)
    ensures Kept(e, [i] + a, depth, o) <==> OpensChildren(e, depth, o) && Kept(e.children[i], a, depth + 1, o)
  {
    assert ([i] + a)[1..] == a;
  }

  function AsList<T>(n: Option<T>): seq<T> {
    if n.Some? then [n.value] else []
  }

  /**
   The pruning rule, exactly. The walk over a serialized tree meets one node for each element that
   is kept, in pre-order; its attributes, and the path that leads to it in the original tree, are
   those of the element; and it says `truncated` exactly when it is at the depth limit and its element has children.
  */
  lemma {:induction false} SerializedIsEmitted(e: Element, at: Address, o: Options)
    ensures forall a <- Preorder(e) :: At(e, a).Some?
    ensures FlatAll(IterAll(AsList(NodeAt(e, PathText(at), |at|, o)))) == Emitted(e, Preorder(e), at, o)
    decreases e, 1, 0
  {
    AllAddressesLead(e);
    EmittedAtRoot(e, at, o);
    ChildrenAreEmitted(e, 0, at, o);
    var n := NodeAt(e, PathText(at), |at|, o);
    if n.Some? { WalkOfNode(n.value); }
  }

  lemma EmittedAtRoot(e: Element, at: Address, o: Options)
    requires forall a <- PreorderFrom(e, 0) :: At(e, a).Some?
    requires forall a <- Preorder(e) :: At(e, a).Some?
    ensures Emitted(e, Preorder(e), at, o) ==
      (if NodeAt(e, PathText(at), |at|, o).Some? then [Describe(e, at, o)] else []) + Emitted(e, PreorderFrom(e, 0), at, o)
  {
    assert Preorder(e)[0] == [] && Preorder(e)[1..] == PreorderFrom(e, 0);
    assert at + [] == at;
  }

  lemma WalkOfNode(n: Node)
    ensures FlatAll(IterAll([n])) == [Flat(n)] + FlatAll(IterAll(n.children))
  {
    IterFromIsAll(n, 0);
    assert n.children[0..] == n.children;
    assert IterAll([n]) == IterNodes(n) + [];
  }

  lemma {:induction false} ChildrenAreEmitted(e: Element, i: nat, at: Address, o: Options)
    requires i <= |e.children|
    ensures forall a <- PreorderFrom(e, i) :: At(e, a).Some?
    ensures Emitted(e, PreorderFrom(e, i), at, o) ==
      if OpensChildren(e, |at|, o) then FlatAll(IterAll(ChildNodes(e, i, PathText(at), |at| + 1, o))) else []
    decreases e, 0, |e.children| - i
  {
    if i < |e.children| {
      ChildrenAreEmitted(e, i + 1, at, o);
      var child, inner := e.children[i], Preorder(e.children[i]);
      SerializedIsEmitted(child, at + [i], o);
      EmittedBelow(e, i, inner, at, o);
      EmittedAppend(e, Below(i, inner), PreorderFrom(e, i + 1), at, o);
      assert (at + [i])[..|at|] == at;
      var n := NodeAt(child, PathText(at + [i]), |at| + 1, o);
      var later := ChildNodes(e, i + 1, PathText(at), |at| + 1, o);
      IterAllAppend(AsList(n), later);
      FlatAllAppend(IterAll(AsList(n)), IterAll(later));
    }
  }

  lemma {:induction false} IterAllAppend(xs: seq<Node>, ys: seq<Node>)
    ensures IterAll(xs + ys) == IterAll(xs) + IterAll(ys)
    decreases |xs|
  {
    if xs == [] {
      assert xs + ys == ys;
    } else {
      assert (xs + ys)[0] == xs[0] && (xs + ys)[1..] == xs[1..] + ys;
      IterAllAppend(xs[1..], ys);
    }
  }

  lemma FlatAllAppend(xs: seq<Node>, ys: seq<Node>)
    ensures FlatAll(xs + ys) == FlatAll(xs) + FlatAll(ys)
  {
  }
}
