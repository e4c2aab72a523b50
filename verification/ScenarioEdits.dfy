/** The edits of the scenario tree, as functions on trees, and what they conserve. */
module ScenarioEdits {
  import opened ScenarioTree
  import opened ScenarioIndex

  /** The list with the last element written over the one at i, and cut by one. */
  function SwapRemove<T>(s: seq<T>, i: nat): seq<T>
    requires i < |s|
  {
    s[i := s[|s| - 1]][..|s| - 1]
  }

  lemma SwapRemoveBag<T>(s: seq<T>, i: nat)
    requires i < |s|
    ensures multiset(SwapRemove(s, i)) == multiset(s) - multiset{s[i]}
  {
    UpdateBag(s, i, s[|s| - 1]);
    CutBag(s[i := s[|s| - 1]], multiset(s) - multiset{s[i]}, s[|s| - 1]);
  }

  lemma UpdateBag<T>(s: seq<T>, i: nat, x: T)
    requires i < |s|
    ensures multiset(s[i := x]) == multiset(s) - multiset{s[i]} + multiset{x}
  {
  }

  lemma CutBag<T>(s: seq<T>, rest: multiset<T>, last: T)
    requires s != [] && s[|s| - 1] == last && multiset(s) == rest + multiset{last}
    ensures multiset(s[..|s| - 1]) == rest
  {
    assert s == s[..|s| - 1] + [s[|s| - 1]];
    BagSame(multiset(s[..|s| - 1]), rest, multiset{last});
  }

  lemma BagSame<T>(a: multiset<T>, b: multiset<T>, c: multiset<T>)
    requires a + c == b + c
    ensures a == b
  {
    assert a == (a + c) - c && b == (b + c) - c;
  }

  /** Removing the element just appended restores the list. */
  lemma SwapRemoveLast<T>(s: seq<T>, x: T)
    ensures SwapRemove(s + [x], |s|) == s
  {
  }

  // ----- One list of children

  function Append(e: Element, x: Element): Element {
    e.(children := e.children + [x])
  }

  function Remove(e: Element, i: nat): Element
    requires i < |e.children|
  {
    e.(children := SwapRemove(e.children, i))
  }

  lemma {:induction false} OccursBelowPrefix(e: Element, f: Element, n: nat, name: string)
    requires n <= |e.children| && n <= |f.children| && e.children[..n] == f.children[..n]
    ensures OccursBelow(e, n, name) == OccursBelow(f, n, name)
  {
    if n > 0 {
      assert e.children[..n - 1] == e.children[..n][..n - 1] == f.children[..n - 1];
      assert e.children[n - 1] == e.children[..n][n - 1] == f.children[n - 1];
      OccursBelowPrefix(e, f, n - 1, name);
    }
  }

  lemma OccursAppend(e: Element, x: Element, name: string)
    ensures Occurs(Append(e, x), name) == Occurs(e, name) + Occurs(x, name)
  {
    var n := |e.children|;
    assert Append(e, x).children[..n] == e.children[..n];
    OccursBelowPrefix(Append(e, x), e, n, name);
  }

  lemma OccursRemove(e: Element, i: nat, name: string)
    requires i < |e.children|
    ensures Occurs(e.children[i], name) <= Occurs(e, name)
    ensures Occurs(Remove(e, i), name) == Occurs(e, name) - Occurs(e.children[i], name)
  {
    var n := |e.children|;
    var f := e.(children := e.children[i := e.children[n - 1]]);
    OccursBelowUpdate(e, i, e.children[n - 1], n, name);
    OccursChild(e, i, n, name);
    assert Remove(e, i).children[..n - 1] == f.children[..n - 1];
    OccursBelowPrefix(Remove(e, i), f, n - 1, name);
  }

  // ----- In the tree

  function AppendAt(root: Element, loc: Loc, x: Element): Element
    requires IsLoc(root, loc)
  {
    SetAt(root, loc, Append(At(root, loc), x))
  }

  function RemoveAt(root: Element, loc: Loc, i: nat): Element
    requires IsLoc(root, loc) && i < |At(root, loc).children|
  {
    SetAt(root, loc, Remove(At(root, loc), i))
  }

  lemma OccursAppendAt(root: Element, loc: Loc, x: Element, name: string)
    requires IsLoc(root, loc)
    ensures Occurs(AppendAt(root, loc, x), name) == Occurs(root, name) + Occurs(x, name)
  {
    OccursSetAt(root, loc, Append(At(root, loc), x), name);
    OccursAppend(At(root, loc), x, name);
  }

  lemma OccursRemoveAt(root: Element, loc: Loc, i: nat, name: string)
    requires IsLoc(root, loc) && i < |At(root, loc).children|
    ensures Occurs(RemoveAt(root, loc, i), name) == Occurs(root, name) - Occurs(At(root, loc).children[i], name)
  {
    OccursSetAt(root, loc, Remove(At(root, loc), i), name);
    OccursRemove(At(root, loc), i, name);
  }

  /** The network location gains exactly the physical location appended. */
  lemma PhysAppendAt(root: Element, loc: Loc, x: Element)
    requires IsLoc(root, loc) && |loc| == NETLOC_LEVEL
    ensures PhyBag(AppendAt(root, loc, x), DEPLOYMENT_LEVEL) == PhyBag(root, DEPLOYMENT_LEVEL) + multiset{x}
  {
    var nl := At(root, loc);
    PhysSetAt(root, DEPLOYMENT_LEVEL, loc, Append(nl, x));
    PhysAreChildren(nl);
    PhysAreChildren(Append(nl, x));
    GainedInPart(PhyBag(root, DEPLOYMENT_LEVEL), multiset(nl.children), x);
  }

  lemma GainedInPart<T>(a: multiset<T>, part: multiset<T>, x: T)
    requires part <= a
    ensures a - part + (part + multiset{x}) == a + multiset{x}
  {
  }

  /** The network location loses exactly the physical location at the index. */
  lemma PhysRemoveAt(root: Element, loc: Loc, i: nat)
    requires IsLoc(root, loc) && |loc| == NETLOC_LEVEL && i < |At(root, loc).children|
    ensures At(root, loc).children[i] in PhyBag(root, DEPLOYMENT_LEVEL)
    ensures PhyBag(RemoveAt(root, loc, i), DEPLOYMENT_LEVEL)
         == PhyBag(root, DEPLOYMENT_LEVEL) - multiset{At(root, loc).children[i]}
  {
    var nl := At(root, loc);
    PhysSetAt(root, DEPLOYMENT_LEVEL, loc, Remove(nl, i));
    PhysRemove(nl, i);
    LostFromPart(PhyBag(root, DEPLOYMENT_LEVEL), PhyBag(nl, NETLOC_LEVEL), nl.children[i]);
  }

  lemma PhysRemove(nl: Element, i: nat)
    requires i < |nl.children|
    ensures nl.children[i] in PhyBag(nl, NETLOC_LEVEL)
    ensures PhyBag(Remove(nl, i), NETLOC_LEVEL) == PhyBag(nl, NETLOC_LEVEL) - multiset{nl.children[i]}
  {
    PhysAreChildren(nl);
    PhysAreChildren(Remove(nl, i));
    SwapRemoveBag(nl.children, i);
  }

  lemma PhysAreChildren(nl: Element)
    ensures PhyBag(nl, NETLOC_LEVEL) == multiset(nl.children)
  {
    PhysOfNetLoc(nl, |nl.children|);
    assert nl.children[..|nl.children|] == nl.children;
  }

  lemma LostFromPart<T>(a: multiset<T>, part: multiset<T>, x: T)
    requires part <= a && x in part
    ensures x in a && a - part + (part - multiset{x}) == a - multiset{x}
  {
  }

  // ----- Moving a physical location

  /** A move: appended to the new network location, then cut out of the old one at an index. */
  function Moved(root: Element, src: Loc, dst: Loc, x: Element, i: nat): Element
    requires IsLoc(root, src) && IsLoc(root, dst) && |src| == |dst| && src != dst
    requires i < |At(root, src).children|
  {
    AtElsewhere(root, dst, Append(At(root, dst), x), src);
    RemoveAt(AppendAt(root, dst, x), src, i)
  }

  /** The names after a move are those before, with the moved subtree's once more and the cut one's once less. */
  lemma OccursMoved(root: Element, src: Loc, dst: Loc, x: Element, i: nat, name: string)
    requires IsLoc(root, src) && IsLoc(root, dst) && |src| == |dst| && src != dst
    requires i < |At(root, src).children|
    ensures Occurs(Moved(root, src, dst, x, i), name)
         == Occurs(root, name) + Occurs(x, name) - Occurs(At(root, src).children[i], name)
  {
    AtElsewhere(root, dst, Append(At(root, dst), x), src);
    OccursAppendAt(root, dst, x, name);
    OccursRemoveAt(AppendAt(root, dst, x), src, i, name);
  }

  lemma PhysMoved(root: Element, src: Loc, dst: Loc, x: Element, i: nat)
    requires IsLoc(root, src) && IsLoc(root, dst) && |src| == |dst| == NETLOC_LEVEL && src != dst
    requires i < |At(root, src).children|
    ensures PhyBag(Moved(root, src, dst, x, i), DEPLOYMENT_LEVEL)
         == PhyBag(root, DEPLOYMENT_LEVEL) + multiset{x} - multiset{At(root, src).children[i]}
  {
    AtElsewhere(root, dst, Append(At(root, dst), x), src);
    PhysAppendAt(root, dst, x);
    PhysRemoveAt(AppendAt(root, dst, x), src, i);
  }

  /** A move conserves the physical locations, processes included, exactly when it cuts out an
      element equal to the one it appended. */
  lemma MoveConservesExactly(root: Element, src: Loc, dst: Loc, x: Element, i: nat)
    requires IsLoc(root, src) && IsLoc(root, dst) && |src| == |dst| == NETLOC_LEVEL && src != dst
    requires i < |At(root, src).children|
    ensures PhyBag(Moved(root, src, dst, x, i), DEPLOYMENT_LEVEL) == PhyBag(root, DEPLOYMENT_LEVEL)
            <==> At(root, src).children[i] == x
  {
    var gone := At(root, src).children[i];
    PhysMoved(root, src, dst, x, i);
    PhysRemoveAt(root, src, i);
    var b := PhyBag(root, DEPLOYMENT_LEVEL);
    assert (b + multiset{x} - multiset{gone})[x] == b[x] + 1 - if gone == x then 1 else 0;
  }

  /** Two elements alike but for what is below them. */
  predicate SameHead(a: Element, b: Element) {
    a.name == b.name && a.kind == b.kind && a.data == b.data && |a.children| == |b.children|
  }

  /** The place is above the other. */
  predicate Above(loc: Loc, other: Loc) {
    loc < other
  }

  predicate Beside(loc: Loc, other: Loc) {
    !(loc <= other) && !(other <= loc)
  }

  /** What is above the place written keeps its name, type and data. */
  lemma {:induction false} AtAbove(e: Element, loc: Loc, x: Element, other: Loc)
    requires IsLoc(e, loc) && Above(other, loc)
    ensures IsLoc(e, other) && IsLoc(SetAt(e, loc, x), other)
    ensures SameHead(At(SetAt(e, loc, x), other), At(e, other))
    decreases |loc|
  {
    if other != [] { AtAbove(e.children[loc[0]], loc[1..], x, other[1..]); }
  }

  lemma HeadKept(e: Element, loc: Loc, x: Element, other: Loc)
    requires IsLoc(e, loc) && IsLoc(e, other) && (Above(other, loc) || Beside(loc, other))
    ensures IsLoc(SetAt(e, loc, x), other) && SameHead(At(SetAt(e, loc, x), other), At(e, other))
  {
    if Above(other, loc) { AtAbove(e, loc, x, other); } else { AtElsewhere(e, loc, x, other); }
  }

  /** A move changes the two network locations as stated; what is above either keeps its name, type and
      data, and what is beside both is the same. */
  lemma MoveTouchesOnlyTwo(root: Element, src: Loc, dst: Loc, x: Element, i: nat, other: Loc)
    requires IsLoc(root, src) && IsLoc(root, dst) && |src| == |dst| && src != dst
    requires i < |At(root, src).children|
    ensures var r := Moved(root, src, dst, x, i);
      && IsLoc(r, src) && At(r, src) == Remove(At(root, src), i)
      && IsLoc(r, dst) && At(r, dst) == Append(At(root, dst), x)
      && (Above(other, src) || Above(other, dst) ==>
          IsLoc(r, other) && IsLoc(root, other) && SameHead(At(r, other), At(root, other)))
      && (Beside(src, other) && Beside(dst, other) ==> (IsLoc(r, other) <==> IsLoc(root, other)))
      && (Beside(src, other) && Beside(dst, other) && IsLoc(root, other) ==> At(r, other) == At(root, other))
  {
    var mid := AppendAt(root, dst, x);
    AtSetAt(root, dst, Append(At(root, dst), x));
    AtElsewhere(root, dst, Append(At(root, dst), x), src);
    AtSetAt(mid, src, Remove(At(mid, src), i));
    AtElsewhere(mid, src, Remove(At(mid, src), i), dst);
    if Beside(src, other) && Beside(dst, other) {
      AtElsewhere(root, dst, Append(At(root, dst), x), other);
      AtElsewhere(mid, src, Remove(At(mid, src), i), other);
    } else if Above(other, src) || Above(other, dst) {
      if Above(other, src) { AtAbove(root, src, x, other); } else { AtAbove(root, dst, x, other); }
      HeadKept(root, dst, Append(At(root, dst), x), other);
      HeadKept(mid, src, Remove(At(mid, src), i), other);
    }
  }

  /** Below the new location everything stays. */
  lemma MoveKeepsBelowNew(root: Element, src: Loc, dst: Loc, x: Element, i: nat, k: nat, more: Loc)
    requires IsLoc(root, src) && IsLoc(root, dst) && |src| == |dst| && src != dst
    requires i < |At(root, src).children| && IsLoc(root, dst + ([k] + more))
    ensures var r, loc := Moved(root, src, dst, x, i), dst + ([k] + more);
      IsLoc(r, loc) && At(r, loc) == At(root, loc)
  {
    MoveTouchesOnlyTwo(root, src, dst, x, i, src);
    BelowAppended(root, Moved(root, src, dst, x, i), dst, x, k, more);
  }

  /** Below the old location everything but what was cut out stays, the last subtree at its index. */
  lemma MoveKeepsBelowOld(root: Element, src: Loc, dst: Loc, x: Element, i: nat, k: nat, more: Loc)
    requires IsLoc(root, src) && IsLoc(root, dst) && |src| == |dst| && src != dst
    requires i < |At(root, src).children| && k != i && IsLoc(root, src + ([k] + more))
    ensures var r, k' := Moved(root, src, dst, x, i), if k == |At(root, src).children| - 1 then i else k;
      IsLoc(r, src + ([k'] + more)) && At(r, src + ([k'] + more)) == At(root, src + ([k] + more))
  {
    MoveTouchesOnlyTwo(root, src, dst, x, i, src);
    BelowRemoved(root, Moved(root, src, dst, x, i), src, i, k, more);
  }

  lemma BelowAppended(root: Element, r: Element, loc: Loc, x: Element, k: nat, more: Loc)
    requires IsLoc(root, loc) && IsLoc(r, loc) && At(r, loc) == Append(At(root, loc), x)
    requires IsLoc(root, loc + ([k] + more))
    ensures IsLoc(r, loc + ([k] + more)) && At(r, loc + ([k] + more)) == At(root, loc + ([k] + more))
  {
    BelowChild(root, loc, k, more);
    BelowChild(r, loc, k, more);
  }

  lemma BelowRemoved(root: Element, r: Element, loc: Loc, i: nat, k: nat, more: Loc)
    requires IsLoc(root, loc) && IsLoc(r, loc) && i < |At(root, loc).children| && At(r, loc) == Remove(At(root, loc), i)
    requires k != i && IsLoc(root, loc + ([k] + more))
    ensures var k' := if k == |At(root, loc).children| - 1 then i else k;
      IsLoc(r, loc + ([k'] + more)) && At(r, loc + ([k'] + more)) == At(root, loc + ([k] + more))
  {
    BelowChild(root, loc, k, more);
    BelowChild(r, loc, if k == |At(root, loc).children| - 1 then i else k, more);
  }

  lemma BelowChild(e: Element, loc: Loc, k: nat, more: Loc)
    requires IsLoc(e, loc)
    ensures IsLoc(e, loc + ([k] + more)) <==> k < |At(e, loc).children| && IsLoc(At(e, loc).children[k], more)
    ensures IsLoc(e, loc + ([k] + more)) ==> At(e, loc + ([k] + more)) == At(At(e, loc).children[k], more)
  {
    AtAppend(e, loc, [k] + more);
    assert ([k] + more)[1..] == more;
  }

  // ----- Adding, then removing

  /** Removing the last child of the place just appended to restores the exact tree. */
  lemma RemoveUndoesAppend(root: Element, loc: Loc, x: Element)
    requires IsLoc(root, loc)
    ensures IsLoc(AppendAt(root, loc, x), loc) && At(AppendAt(root, loc, x), loc).children == At(root, loc).children + [x]
    ensures RemoveAt(AppendAt(root, loc, x), loc, |At(root, loc).children|) == root
  {
    var nl := At(root, loc);
    AtSetAt(root, loc, Append(nl, x));
    SwapRemoveLast(nl.children, x);
    SetAtTwice(root, loc, Append(nl, x), nl);
    SetAtSame(root, loc);
  }

  lemma {:induction false} SetAtTwice(e: Element, loc: Loc, x: Element, y: Element)
    requires IsLoc(e, loc)
    ensures IsLoc(SetAt(e, loc, x), loc) && SetAt(SetAt(e, loc, x), loc, y) == SetAt(e, loc, y)
    decreases |loc|
  {
    if loc != [] { SetAtTwice(e.children[loc[0]], loc[1..], x, y); }
  }

  lemma {:induction false} SetAtSame(e: Element, loc: Loc)
    requires IsLoc(e, loc)
    ensures SetAt(e, loc, At(e, loc)) == e
    decreases |loc|
  {
    if loc != [] { SetAtSame(e.children[loc[0]], loc[1..]); }
  }

  // ----- Edits that leave the index alone

  /** Rewriting what an element carries beside its name, type and children changes no node. */
  lemma {:induction false} NodesKeepData(e: Element, target: Loc, data: Data, loc: Loc, up: string, trail: seq<string>)
    requires IsLoc(e, target)
    ensures Nodes(SetAt(e, target, At(e, target).(data := data)), loc, up, trail) == Nodes(e, loc, up, trail)
    decreases |target|
  {
    var e' := SetAt(e, target, At(e, target).(data := data));
    if target == [] {
      ChildNodesSame(e, e', loc, Extended(trail, loc, e.name), |e.children|);
    } else {
      var i := target[0];
      NodesKeepData(e.children[i], target[1..], data, loc + [i], e.name, Extended(trail, loc, e.name));
      ChildNodesUpdate(e, e', i, loc, Extended(trail, loc, e.name), |e.children|);
    }
  }

  lemma {:induction false} ChildNodesSame(e: Element, f: Element, loc: Loc, trail: seq<string>, n: nat)
    requires e.name == f.name && e.children == f.children && n <= |e.children|
    ensures ChildNodes(e, loc, trail, n) == ChildNodes(f, loc, trail, n)
  {
    if n > 0 { ChildNodesSame(e, f, loc, trail, n - 1); }
  }

  lemma {:induction false} ChildNodesUpdate(e: Element, f: Element, i: nat, loc: Loc, trail: seq<string>, n: nat)
    requires e.name == f.name && |e.children| == |f.children| && i < |e.children| && n <= |e.children|
    requires forall k :: 0 <= k < |e.children| && k != i ==> e.children[k] == f.children[k]
    requires Nodes(e.children[i], loc + [i], e.name, trail) == Nodes(f.children[i], loc + [i], e.name, trail)
    ensures ChildNodes(e, loc, trail, n) == ChildNodes(f, loc, trail, n)
  {
    if n > 0 { ChildNodesUpdate(e, f, i, loc, trail, n - 1); }
  }

  // ----- Names that are taken

  lemma {:induction false} NamedNode(nodes: seq<Node>, name: string)
    requires Named(nodes, name) >= 1
    ensures exists n :: n in nodes && n.name == name
  {
    var last := nodes[|nodes| - 1];
    if last.name != name {
      NamedNode(nodes[..|nodes| - 1], name);
      var n :| n in nodes[..|nodes| - 1] && n.name == name;
      assert n in nodes;
    } else {
      assert last in nodes;
    }
  }

  /** A name is in the index exactly when it occurs in the tree. */
  lemma IndexedNames(root: Element, name: string)
    requires UniqueNames(root)
    ensures name in IndexNames(map[], NodesOf(root)) <==> Occurs(root, name) == 1
  {
    var nodes := NodesOf(root);
    forall n ensures Named(nodes, n) == Occurs(root, n) { NodesNamed(root, [], "", [], n); }
    NameIndexExact(nodes);
    if Occurs(root, name) == 1 {
      NamedNode(nodes, name);
    }
    if name in IndexNames(map[], nodes) {
      NamedCount(nodes, IndexNames(map[], nodes)[name]);
    }
  }
}
