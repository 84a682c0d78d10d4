/** The Inspector's tree helpers: paths, finding a node by its path, and hit testing. */
module Hierarchy {
  import opened Wrappers
  import opened ElementTypes
  import opened Snapshot
  import Decimal

  // ---- Paths ----------------------------------------------------------------------------------------

  function LastDot(s: string): Option<nat> {
    if s == "" then None
    else if s[|s| - 1] == '.' then Some(|s| - 1)
    else LastDot(s[..|s| - 1])
  }

  /** Reads a printed path back: the child indices after the root's "0". */
  function ParsePath(s: string): Option<Address>
    decreases |s|
  {
    if s == "0" then Some([])
    else
      match LastDot(s)
      case None => None
      case Some(k) =>
        if k >= |s| then None
        else
          var digits := s[k + 1..];
          if digits == "" || !Decimal.AllDigits(digits) then None
          else
            match ParsePath(s[..k])
            case None => None
            case Some(parent) => Some(parent + [Decimal.Value(digits)])
  }

  lemma {:induction false} LastDotBeforeDigits(x: string, d: string)
    requires Decimal.AllDigits(d)
    ensures LastDot(x + "." + d) == Some(|x|)
    decreases |d|
  {
    var s := x + "." + d;
    if d != "" {
      var shorter := d[..|d| - 1];
      assert s[..|s| - 1] == x + "." + shorter;
      assert s[|s| - 1] == d[|d| - 1] && d[|d| - 1] in d && s[|s| - 1] != '.';
      assert forall c <- shorter :: c in d;
      LastDotBeforeDigits(x, shorter);
    }
  }

  lemma ParseOneMore(parent: string, a: Address, n: nat)
    requires ParsePath(parent) == Some(a)
    ensures ParsePath(parent + "." + Decimal.Print(n)) == Some(a + [n])
  {
    var digits := Decimal.Print(n);
    var s := parent + "." + digits;
    LastDotBeforeDigits(parent, digits);
    Decimal.ValueOfPrint(n);
    assert s[|parent|] == '.';
    assert s[..|parent|] == parent && s[|parent| + 1..] == digits;
    assert s != "0";
  }

  /** A printed path spells its address. */
  lemma {:induction false} PathRoundTrip(a: Address)
    ensures ParsePath(PathText(a)) == Some(a)
    decreases |a|
  {
    if a != [] {
      PathRoundTrip(a[..|a| - 1]);
      ParseOneMore(PathText(a[..|a| - 1]), a[..|a| - 1], a[|a| - 1]);
      assert a[..|a| - 1] + [a[|a| - 1]] == a;
    }
  }

  lemma PathsAreInjective(a: Address, b: Address)
    requires PathText(a) == PathText(b)
    ensures a == b
  {
    PathRoundTrip(a);
    PathRoundTrip(b);
  }

  // ---- The walk over a serialized tree -------------------------------------------------------------------

  /** The addresses that are kept, in order. */
  function KeptAmong(e: Element, addresses: seq<Address>, depth: nat, o: Options): seq<Address>
    requires forall a <- addresses :: At(e, a).Some?
  {
    if addresses == [] then []
    else (if Kept(e, addresses[0], depth, o) then [addresses[0]] else []) + KeptAmong(e, addresses[1..], depth, o)
  }

  ghost predicate Distinct(addresses: seq<Address>) {
    forall i, j :: 0 <= i < j < |addresses| ==> addresses[i] != addresses[j]
  }

  lemma {:induction false} KeptAmongFacts(e: Element, addresses: seq<Address>, depth: nat, o: Options)
    requires forall a <- addresses :: At(e, a).Some?
    ensures forall a :: a in KeptAmong(e, addresses, depth, o) <==> a in addresses && Kept(e, a, depth, o)
    ensures Distinct(addresses) ==> Distinct(KeptAmong(e, addresses, depth, o))
    decreases |addresses|
  {
    if addresses != [] {
      KeptAmongFacts(e, addresses[1..], depth, o);
      assert addresses == [addresses[0]] + addresses[1..];
    }
  }

  lemma {:induction false} EmittedDescribesKept(e: Element, addresses: seq<Address>, at: Address, o: Options)
    requires forall a <- addresses :: At(e, a).Some?
    ensures var kept := KeptAmong(e, addresses, |at|, o);
      && |Emitted(e, addresses, at, o)| == |kept|
      && forall k :: 0 <= k < |kept| ==>
        At(e, kept[k]).Some? && Emitted(e, addresses, at, o)[k] == Describe(At(e, kept[k]).value, at + kept[k], o)
    decreases |addresses|
  {
    if addresses != [] {
      EmittedDescribesKept(e, addresses[1..], at, o);
    }
  }

  lemma DistinctAppend(xs: seq<Address>, ys: seq<Address>)
    requires Distinct(xs) && Distinct(ys)
    requires forall x <- xs :: x !in ys
    ensures Distinct(xs + ys)
  {
    forall i, j | 0 <= i < j < |xs + ys| ensures (xs + ys)[i] != (xs + ys)[j] {
      if i < |xs| <= j { assert xs[i] in xs && ys[j - |xs|] in ys; }
    }
  }

  lemma BelowIsDistinct(i: nat, addresses: seq<Address>)
    requires Distinct(addresses)
    ensures Distinct(Below(i, addresses))
  {
    forall k, l | 0 <= k < l < |addresses| ensures [i] + addresses[k] != [i] + addresses[l] {
      assert ([i] + addresses[k])[1..] == addresses[k] && ([i] + addresses[l])[1..] == addresses[l];
    }
  }

  lemma {:induction false} PreorderIsDistinct(e: Element)
    ensures Distinct(Preorder(e))
    decreases e, 1, 0
  {
    PreorderFromIsDistinct(e, 0);
    DistinctAppend([[]], PreorderFrom(e, 0));
  }

  lemma {:induction false} PreorderFromIsDistinct(e: Element, i: nat)
    requires i <= |e.children|
    ensures Distinct(PreorderFrom(e, i))
    ensures forall a <- PreorderFrom(e, i) :: a != [] && a[0] >= i
    decreases e, 0, |e.children| - i
  {
    if i < |e.children| {
      PreorderIsDistinct(e.children[i]);
      BelowIsDistinct(i, Preorder(e.children[i]));
      PreorderFromIsDistinct(e, i + 1);
      DistinctAppend(Below(i, Preorder(e.children[i])), PreorderFrom(e, i + 1));
    }
  }

  /** The walk over a serialized tree: its k-th node describes the k-th kept address. */
  lemma WalkDescribesKept(e: Element, o: Options, tree: Node)
    requires Serialize(e, o) == Some(tree)
    ensures forall a <- Preorder(e) :: At(e, a).Some?
    ensures var kept := KeptAmong(e, Preorder(e), 0, o);
      && |IterNodes(tree)| == |kept| && Distinct(kept)
      && forall k :: 0 <= k < |kept| ==>
        At(e, kept[k]).Some? && Flat(IterNodes(tree)[k]) == Describe(At(e, kept[k]).value, kept[k], o)
  {
    SerializedIsEmitted(e, [], o);
    EmittedDescribesKept(e, Preorder(e), [], o);
    PreorderIsDistinct(e);
    KeptAmongFacts(e, Preorder(e), 0, o);
    assert IterAll([tree]) == IterNodes(tree) + [];
    var kept := KeptAmong(e, Preorder(e), 0, o);
    var flat := FlatAll(IterNodes(tree));
    assert flat == Emitted(e, Preorder(e), [], o);
    forall k | 0 <= k < |kept| ensures Flat(IterNodes(tree)[k]) == Describe(At(e, kept[k]).value, kept[k], o) {
      assert flat[k] == Flat(IterNodes(tree)[k]);
      assert [] + kept[k] == kept[k];
    }
  }

  /**
   Pruning, element by element: an element has a node in the serialized tree if and only if it is
   no deeper than `maxDepth` and, unless all are included, visible with all its ancestors. The node
   says what the element is and how to reach it in the original tree.
  */
  lemma EmittedIffKept(e: Element, o: Options, tree: Node, a: Address)
    requires Serialize(e, o) == Some(tree) && At(e, a).Some?
    ensures Kept(e, a, 0, o) <==> exists n <- IterNodes(tree) :: n.path == PathText(a)
    ensures forall n <- IterNodes(tree) :: n.path == PathText(a) ==> Flat(n) == Describe(At(e, a).value, a, o)
  {
    WalkDescribesKept(e, o, tree);
    var kept, nodes := KeptAmong(e, Preorder(e), 0, o), IterNodes(tree);
    PreorderIsComplete(e, a);
    KeptAmongFacts(e, Preorder(e), 0, o);
    if Kept(e, a, 0, o) {
      var k :| 0 <= k < |kept| && kept[k] == a;
      assert Flat(nodes[k]).path == nodes[k].path;
      assert nodes[k] in nodes && nodes[k].path == PathText(a);
    }
    forall n | n in nodes && n.path == PathText(a)
      ensures Kept(e, a, 0, o) && Flat(n) == Describe(At(e, a).value, a, o)
    {
      var k :| 0 <= k < |nodes| && nodes[k] == n;
      assert Flat(nodes[k]).path == PathText(kept[k]);
      PathsAreInjective(kept[k], a);
      assert kept[k] in kept;
    }
  }

  /** The attributes of a node are those of the element, at this depth. */
  predicate SaysWhatItIs(n: Node, e: Element, depth: nat, o: Options) {
    && n.typeName == NameFor(e.elementType) && n.identifier == e.identifier && n.labelText == e.labelText
    && n.value == e.value && n.title == e.title && n.placeholder == e.placeholder
    && n.enabled == e.enabled && n.selected == e.selected && n.frame == e.frame
    && n.visible == IsVisible(e.frame, o.screen)
    && (n.truncated <==> depth >= o.maxDepth && e.children != [])
  }

  lemma DescribedIsSaid(n: Node, e: Element, a: Address, o: Options)
    requires Flat(n) == Describe(e, a, o)
    ensures SaysWhatItIs(n, e, |a|, o)
  {
    var f := Flat(n);
    assert f.typeName == n.typeName && f.identifier == n.identifier && f.labelText == n.labelText;
    assert f.value == n.value && f.title == n.title && f.placeholder == n.placeholder;
    assert f.enabled == n.enabled && f.selected == n.selected && f.frame == n.frame;
    assert f.visible == n.visible && f.truncated == n.truncated;
  }

  /** The node with an element's path has the element's attributes, each in its place. */
  lemma NodesSayWhatTheyAre(e: Element, o: Options, tree: Node, a: Address, n: Node)
    requires Serialize(e, o) == Some(tree) && At(e, a).Some? && n in IterNodes(tree) && n.path == PathText(a)
    ensures SaysWhatItIs(n, At(e, a).value, |a|, o)
  {
    EmittedIffKept(e, o, tree, a);
    DescribedIsSaid(n, At(e, a).value, a, o);
  }

  /** No two nodes of a serialized tree have the same path. */
  lemma PathsAreDistinct(e: Element, o: Options, tree: Node, i: nat, j: nat)
    requires Serialize(e, o) == Some(tree)
    requires i < |IterNodes(tree)| && j < |IterNodes(tree)| && IterNodes(tree)[i].path == IterNodes(tree)[j].path
    ensures i == j
  {
    WalkDescribesKept(e, o, tree);
    var kept, nodes := KeptAmong(e, Preorder(e), 0, o), IterNodes(tree);
    assert Flat(nodes[i]).path == PathText(kept[i]) && Flat(nodes[j]).path == PathText(kept[j]);
    PathsAreInjective(kept[i], kept[j]);
  }

  /** The first node of the walk with this path. */
  method FindByPath(root: Node, path: string) returns (r: Option<Node>)
    ensures r.Some? ==> r.value in IterNodes(root) && r.value.path == path
    ensures r.None? ==> forall n <- IterNodes(root) :: n.path != path
  {
    var nodes := IterNodes(root);
    for i := 0 to |nodes|
      invariant forall k :: 0 <= k < i ==> nodes[k].path != path
    {
      if nodes[i].path == path { return Some(nodes[i]); }
    }
    return None;
  }

  /** A node's path finds that very node. */
  method FindNodeAgain(e: Element, o: Options, tree: Node, n: Node) returns (r: Option<Node>)
    requires Serialize(e, o) == Some(tree) && n in IterNodes(tree)
    ensures r == Some(n)
  {
    r := FindByPath(tree, n.path);
    ghost var nodes := IterNodes(tree);
    ghost var i :| 0 <= i < |nodes| && nodes[i] == n;
    if r.Some? {
      ghost var j :| 0 <= j < |nodes| && nodes[j] == r.value;
      PathsAreDistinct(e, o, tree, i, j);
    }
  }

  // ---- Hit testing --------------------------------------------------------------------------------------------

  function Positive(r: real): real {
    if r > 0.0 then r else 0.0
  }

  function Area(r: Rect): real {
    Positive(r.width) * Positive(r.height)
  }

  predicate Contains(r: Rect, x: real, y: real) {
    r.x <= x <= r.x + r.width && r.y <= y <= r.y + r.height
  }

  predicate Eligible(n: Node, x: real, y: real, visibleOnly: bool) {
    (n.visible || !visibleOnly) && Area(n.frame) > 0.0 && Contains(n.frame, x, y)
  }

  /** The node at `k` is eligible, no other is smaller, and those before it are larger. */
  ghost predicate IsTightest(nodes: seq<Node>, x: real, y: real, visibleOnly: bool, k: nat) {
    && k < |nodes| && Eligible(nodes[k], x, y, visibleOnly)
    && (forall j :: 0 <= j < |nodes| && Eligible(nodes[j], x, y, visibleOnly) ==> Area(nodes[k].frame) <= Area(nodes[j].frame))
    && (forall j :: 0 <= j < k && Eligible(nodes[j], x, y, visibleOnly) ==> Area(nodes[k].frame) < Area(nodes[j].frame))
  }

  /** The point lies on the node's frame, borders included, the frame has an inside, and the node may be hit. */
  predicate Candidate(n: Node, x: real, y: real, visibleOnly: bool) {
    && (n.visible || !visibleOnly) && n.frame.width > 0.0 && n.frame.height > 0.0
    && n.frame.x <= x <= n.frame.x + n.frame.width && n.frame.y <= y <= n.frame.y + n.frame.height
  }

  predicate NoLarger(n: Node, m: Node) {
    n.frame.width * n.frame.height <= m.frame.width * m.frame.height
  }

  ghost predicate SmallestAt(nodes: seq<Node>, x: real, y: real, visibleOnly: bool, n: Node) {
    && n in nodes && Candidate(n, x, y, visibleOnly)
    && forall m <- nodes :: Candidate(m, x, y, visibleOnly) ==> NoLarger(n, m)
  }

  lemma EligibleIsCandidate(n: Node, x: real, y: real, visibleOnly: bool)
    ensures Eligible(n, x, y, visibleOnly) <==> Candidate(n, x, y, visibleOnly)
    ensures Candidate(n, x, y, visibleOnly) ==> Area(n.frame) == n.frame.width * n.frame.height
  {
    var w, h := Positive(n.frame.width), Positive(n.frame.height);
    assert w > 0.0 && h > 0.0 ==> w * h > 0.0;
    assert w == 0.0 || h == 0.0 ==> w * h == 0.0;
  }

  lemma TightestIsSmallest(nodes: seq<Node>, x: real, y: real, visibleOnly: bool, k: nat)
    requires IsTightest(nodes, x, y, visibleOnly, k)
    ensures SmallestAt(nodes, x, y, visibleOnly, nodes[k])
  {
    EligibleIsCandidate(nodes[k], x, y, visibleOnly);
    forall m | m in nodes && Candidate(m, x, y, visibleOnly) ensures NoLarger(nodes[k], m) {
      EligibleIsCandidate(m, x, y, visibleOnly);
      var j :| 0 <= j < |nodes| && nodes[j] == m;
    }
  }

  lemma NoneIsCandidate(nodes: seq<Node>, x: real, y: real, visibleOnly: bool)
    requires forall n <- nodes :: !Eligible(n, x, y, visibleOnly)
    ensures forall n <- nodes :: !Candidate(n, x, y, visibleOnly)
  {
    forall n | n in nodes ensures !Candidate(n, x, y, visibleOnly) { EligibleIsCandidate(n, x, y, visibleOnly); }
  }

  /** The smallest eligible node, the first of them in the walk; none exactly when none is eligible. */
  method HitTest(root: Node, x: real, y: real, visibleOnly: bool) returns (best: Option<Node>, ghost at: nat)
    ensures best.Some? ==> IsTightest(IterNodes(root), x, y, visibleOnly, at) && best.value == IterNodes(root)[at]
    ensures best.None? ==> forall n <- IterNodes(root) :: !Eligible(n, x, y, visibleOnly)
    ensures best.None? ==> forall n <- IterNodes(root) :: !Candidate(n, x, y, visibleOnly)
    ensures best.Some? ==> SmallestAt(IterNodes(root), x, y, visibleOnly, best.value)
  {
    var nodes := IterNodes(root);
    best, at := None, 0;
    var bestArea := 0.0;
    for i := 0 to |nodes|
      invariant best.Some? ==> bestArea == Area(best.value.frame) && at < i && best.value == nodes[at]
      invariant best.Some? ==> IsTightest(nodes[..i], x, y, visibleOnly, at)
      invariant best.None? ==> forall j :: 0 <= j < i ==> !Eligible(nodes[j], x, y, visibleOnly)
    {
      var n := nodes[i];
      assert nodes[..i + 1] == nodes[..i] + [n];
      if visibleOnly && !n.visible { continue; }
      if Area(n.frame) <= 0.0 || !Contains(n.frame, x, y) { continue; }
      if best.None? || Area(n.frame) < bestArea {
        best, bestArea, at := Some(n), Area(n.frame), i;
      }
    }
    assert nodes[..|nodes|] == nodes;
    if best.Some? { TightestIsSmallest(nodes, x, y, visibleOnly, at); } else { NoneIsCandidate(nodes, x, y, visibleOnly); }
  }

  lemma TightestIsUnique(nodes: seq<Node>, x: real, y: real, visibleOnly: bool, k: nat, l: nat)
    requires IsTightest(nodes, x, y, visibleOnly, k) && IsTightest(nodes, x, y, visibleOnly, l)
    ensures k == l
  {
  }

  // ---- Hit testing on the pruned tree ------------------------------------------------------------------------

  /** No visible element, as far down as is serialized, has an invisible ancestor. */
  ghost predicate VisibilityIsInherited(e: Element, o: Options) {
    forall a :: At(e, a).Some? && Kept(e, a, 0, o.(includeInvisible := true)) && IsVisible(At(e, a).value.frame, o.screen) ==>
      VisibleDownTo(e, a, o.screen)
  }

  lemma {:induction false} VisibleAtTheEnd(e: Element, a: Address, screen: Rect)
    requires At(e, a).Some? && VisibleDownTo(e, a, screen)
    ensures IsVisible(At(e, a).value.frame, screen)
    decreases |a|
  {
    if a != [] { VisibleAtTheEnd(e.children[a[0]], a[1..], screen); }
  }

  /** Every node of the visible-only tree is, but for its children, a node of the full tree. */
  lemma PrunedNodesAreNodes(e: Element, o: Options, full: Node, pruned: Node, n: Node)
    requires Serialize(e, o.(includeInvisible := true)) == Some(full)
    requires Serialize(e, o.(includeInvisible := false)) == Some(pruned)
    requires n in IterNodes(pruned)
    ensures n.visible
    ensures exists m <- IterNodes(full) :: Flat(m) == Flat(n)
  {
    var some, all := o.(includeInvisible := false), o.(includeInvisible := true);
    WalkDescribesKept(e, some, pruned);
    KeptAmongFacts(e, Preorder(e), 0, some);
    var kept := KeptAmong(e, Preorder(e), 0, some);
    var k :| 0 <= k < |kept| && IterNodes(pruned)[k] == n;
    var a := kept[k];
    assert a in kept;
    VisibleAtTheEnd(e, a, o.screen);
    EmittedIffKept(e, all, full, a);
    var m :| m in IterNodes(full) && m.path == PathText(a);
    assert Describe(At(e, a).value, a, all) == Describe(At(e, a).value, a, some);
    assert Flat(m) == Flat(n);
  }

  /** The pruned tree never yields a tighter element than the full one. */
  lemma PruningNeverTightens(e: Element, o: Options, full: Node, pruned: Node, x: real, y: real, k: nat, l: nat)
    requires Serialize(e, o.(includeInvisible := true)) == Some(full)
    requires Serialize(e, o.(includeInvisible := false)) == Some(pruned)
    requires IsTightest(IterNodes(full), x, y, true, k) && IsTightest(IterNodes(pruned), x, y, true, l)
    ensures Area(IterNodes(full)[k].frame) <= Area(IterNodes(pruned)[l].frame)
  {
    var n := IterNodes(pruned)[l];
    PrunedNodesAreNodes(e, o, full, pruned, n);
    var m :| m in IterNodes(full) && Flat(m) == Flat(n);
    assert Flat(m).frame == m.frame && Flat(m).visible == m.visible && Flat(n).frame == n.frame;
    var j :| 0 <= j < |IterNodes(full)| && IterNodes(full)[j] == m;
  }

  /** The hit among descriptions at addresses: first of the smallest. */
  function TightestOf(nodes: seq<Node>, x: real, y: real, best: Option<Node>): Option<Node> {
    if nodes == [] then best
    else
      var n := nodes[0];
      var next := if Eligible(n, x, y, true) && (best.None? || Area(n.frame) < Area(best.value.frame)) then Some(n) else best;
      TightestOf(nodes[1..], x, y, next)
  }

  lemma {:induction false} TightestOfFindsTightest(nodes: seq<Node>, x: real, y: real, k: nat, best: Option<Node>)
    requires IsTightest(nodes, x, y, true, k)
    requires best.Some? ==> Area(nodes[k].frame) < Area(best.value.frame)
    ensures TightestOf(nodes, x, y, best) == Some(nodes[k])
    decreases |nodes|
  {
    if k == 0 {
      TightestOfKeeps(nodes[1..], x, y, nodes[0]);
    } else {
      var n := nodes[0];
      var next := if Eligible(n, x, y, true) && (best.None? || Area(n.frame) < Area(best.value.frame)) then Some(n) else best;
      assert nodes[1..][k - 1] == nodes[k];
      TightestOfFindsTightest(nodes[1..], x, y, k - 1, next);
    }
  }

  lemma {:induction false} TightestOfKeeps(nodes: seq<Node>, x: real, y: real, best: Node)
    requires forall j :: 0 <= j < |nodes| && Eligible(nodes[j], x, y, true) ==> Area(best.frame) <= Area(nodes[j].frame)
    ensures TightestOf(nodes, x, y, Some(best)) == Some(best)
    decreases |nodes|
  {
    if nodes != [] { TightestOfKeeps(nodes[1..], x, y, best); }
  }

  /** Leaving out elements that are not visible does not change the hit. */
  lemma {:induction false} SameHitEmitted(e: Element, addresses: seq<Address>, o: Options, x: real, y: real, best: Option<Node>)
    requires forall a <- addresses :: At(e, a).Some?
    requires VisibilityIsInherited(e, o)
    ensures TightestOf(Emitted(e, addresses, [], o.(includeInvisible := true)), x, y, best)
         == TightestOf(Emitted(e, addresses, [], o.(includeInvisible := false)), x, y, best)
    decreases |addresses|
  {
    if addresses != [] {
      var some, all := o.(includeInvisible := false), o.(includeInvisible := true);
      var a, rest := addresses[0], addresses[1..];
      var n := Describe(At(e, a).value, [] + a, all);
      assert n == Describe(At(e, a).value, [] + a, some);
      var next := if Eligible(n, x, y, true) && (best.None? || Area(n.frame) < Area(best.value.frame)) then Some(n) else best;
      SameHitEmitted(e, rest, o, x, y, next);
      SameHitEmitted(e, rest, o, x, y, best);
      if Kept(e, a, 0, all) {
        var f := Emitted(e, rest, [], all);
        assert Emitted(e, addresses, [], all) == [n] + f && ([n] + f)[1..] == f;
        var g := Emitted(e, rest, [], some);
        if Kept(e, a, 0, some) {
          assert Emitted(e, addresses, [], some) == [n] + g && ([n] + g)[1..] == g;
        } else {
          assert !n.visible;
          assert Emitted(e, addresses, [], some) == g;
        }
      } else {
        assert !Kept(e, a, 0, some);
        assert Emitted(e, addresses, [], all) == Emitted(e, rest, [], all);
        assert Emitted(e, addresses, [], some) == Emitted(e, rest, [], some);
      }
    }
  }

  /** When visibility is inherited, clicking the visible-only tree selects what clicking the full tree does. */
  lemma PruningKeepsTheHit(e: Element, o: Options, full: Node, pruned: Node, x: real, y: real, k: nat, l: nat)
    requires Serialize(e, o.(includeInvisible := true)) == Some(full)
    requires Serialize(e, o.(includeInvisible := false)) == Some(pruned)
    requires VisibilityIsInherited(e, o)
    requires IsTightest(IterNodes(full), x, y, true, k) && IsTightest(IterNodes(pruned), x, y, true, l)
    ensures IterNodes(full)[k].path == IterNodes(pruned)[l].path
  {
    AllAddressesLead(e);
    HitOfTree(e, o.(includeInvisible := true), full, x, y, k);
    HitOfTree(e, o.(includeInvisible := false), pruned, x, y, l);
    SameHitEmitted(e, Preorder(e), o, x, y, None);
  }

  lemma HitOfTree(e: Element, o: Options, tree: Node, x: real, y: real, k: nat)
    requires Serialize(e, o) == Some(tree)
    requires IsTightest(IterNodes(tree), x, y, true, k)
    ensures forall a <- Preorder(e) :: At(e, a).Some?
    ensures TightestOf(Emitted(e, Preorder(e), [], o), x, y, None) == Some(Flat(IterNodes(tree)[k]))
  {
    SerializedIsEmitted(e, [], o);
    assert IterAll([tree]) == IterNodes(tree) + [];
    var nodes, flat := IterNodes(tree), Emitted(e, Preorder(e), [], o);
    assert flat == FlatAll(nodes);
    assert forall j :: 0 <= j < |nodes| ==> flat[j].frame == nodes[j].frame && flat[j].visible == nodes[j].visible;
    TightestOfFindsTightest(flat, x, y, k, None);
  }

  /** And there is something to click on one exactly when there is on the other. */
  lemma PruningKeepsEligibility(e: Element, o: Options, full: Node, pruned: Node, x: real, y: real)
    requires Serialize(e, o.(includeInvisible := true)) == Some(full)
    requires Serialize(e, o.(includeInvisible := false)) == Some(pruned)
    requires VisibilityIsInherited(e, o)
    ensures (exists n <- IterNodes(full) :: Eligible(n, x, y, true)) <==> (exists n <- IterNodes(pruned) :: Eligible(n, x, y, true))
  {
    forall n | n in IterNodes(pruned) && Eligible(n, x, y, true)
      ensures exists m <- IterNodes(full) :: Eligible(m, x, y, true)
    {
      PrunedNodesAreNodes(e, o, full, pruned, n);
      var m :| m in IterNodes(full) && Flat(m) == Flat(n);
      assert Flat(m).frame == m.frame && Flat(m).visible == m.visible && Flat(n).frame == n.frame;
      assert Eligible(m, x, y, true);
    }
    forall n | n in IterNodes(full) && Eligible(n, x, y, true)
      ensures exists m <- IterNodes(pruned) :: Eligible(m, x, y, true)
    {
      VisibleNodesStay(e, o, full, pruned, n);
      var m :| m in IterNodes(pruned) && Flat(m) == Flat(n);
      assert Flat(m).frame == m.frame && Flat(m).visible == m.visible && Flat(n).frame == n.frame;
      assert Eligible(m, x, y, true);
    }
  }

  lemma VisibleNodesStay(e: Element, o: Options, full: Node, pruned: Node, n: Node)
    requires Serialize(e, o.(includeInvisible := true)) == Some(full)
    requires Serialize(e, o.(includeInvisible := false)) == Some(pruned)
    requires VisibilityIsInherited(e, o) && n in IterNodes(full) && n.visible
    ensures exists m <- IterNodes(pruned) :: Flat(m) == Flat(n)
  {
    var some, all := o.(includeInvisible := false), o.(includeInvisible := true);
    WalkDescribesKept(e, all, full);
    KeptAmongFacts(e, Preorder(e), 0, all);
    var kept := KeptAmong(e, Preorder(e), 0, all);
    var k :| 0 <= k < |kept| && IterNodes(full)[k] == n;
    var a := kept[k];
    assert a in kept && Flat(n).visible == n.visible;
    assert Kept(e, a, 0, some);
    EmittedIffKept(e, some, pruned, a);
    var m :| m in IterNodes(pruned) && m.path == PathText(a);
    assert Describe(At(e, a).value, a, all) == Describe(At(e, a).value, a, some);
  }
}
