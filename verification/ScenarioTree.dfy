/** The scenario tree: a deployment over domains, zones, network locations, physical locations
    and processes, with the place of every element in it. */
module ScenarioTree {
  import opened Common

  /** Network characteristics; rates per direction, and the older single rate. */
  datatype NetChar = NetChar(
    latency: int, latencyVariation: int, distribution: string, packetLoss: real,
    throughput: int, throughputDl: int, throughputUl: int)

  /** The characteristics an element carried before it had a NetChar. */
  datatype Legacy = Legacy(latency: int, latencyVariation: int, throughput: int, packetLoss: real)

  /** What an element carries beside its name and type; a process in a mobility group names its service. */
  datatype Data = Data(id: string, netChar: Option<NetChar>, legacy: Legacy, interFog: Legacy, interEdge: Legacy,
                       meSvcName: string)

  /** An element of the tree. The root is the deployment, named as the scenario. */
  datatype Element = Element(name: string, kind: string, data: Data, children: seq<Element>)

  const DEPLOYMENT_LEVEL := 0
  const DOMAIN_LEVEL := 1
  const ZONE_LEVEL := 2
  const NETLOC_LEVEL := 3
  const PHYLOC_LEVEL := 4
  const PROCESS_LEVEL := 5

  /** The place of an element: the index taken at each level below the deployment. */
  type Loc = seq<nat>

  /** The element is a tree of the levels from the given one down to processes. */
  predicate Leveled(e: Element, level: nat) {
    && level <= PROCESS_LEVEL
    && (level == PROCESS_LEVEL ==> e.children == [])
    && forall i :: 0 <= i < |e.children| ==> Leveled(e.children[i], level + 1)
  }

  predicate IsLoc(e: Element, loc: Loc)
    decreases |loc|
  {
    loc == [] || (loc[0] < |e.children| && IsLoc(e.children[loc[0]], loc[1..]))
  }

  function At(e: Element, loc: Loc): Element
    requires IsLoc(e, loc)
    decreases |loc|
  {
    if loc == [] then e else At(e.children[loc[0]], loc[1..])
  }

  /** The tree with another element at a place. */
  function SetAt(e: Element, loc: Loc, x: Element): Element
    requires IsLoc(e, loc)
    decreases |loc|
  {
    if loc == [] then x else e.(children := e.children[loc[0] := SetAt(e.children[loc[0]], loc[1..], x)])
  }

  lemma {:induction false} LeveledAt(e: Element, level: nat, loc: Loc)
    requires Leveled(e, level) && IsLoc(e, loc)
    ensures Leveled(At(e, loc), level + |loc|)
    decreases |loc|
  {
    if loc != [] { LeveledAt(e.children[loc[0]], level + 1, loc[1..]); }
  }

  lemma {:induction false} LeveledSetAt(e: Element, level: nat, loc: Loc, x: Element)
    requires Leveled(e, level) && IsLoc(e, loc) && Leveled(x, level + |loc|)
    ensures Leveled(SetAt(e, loc, x), level)
    decreases |loc|
  {
    if loc != [] { LeveledSetAt(e.children[loc[0]], level + 1, loc[1..], x); }
  }

  /** Writing at one place: what is found there, and anywhere that is neither above nor below it. */
  lemma {:induction false} AtSetAt(e: Element, loc: Loc, x: Element)
    requires IsLoc(e, loc)
    ensures IsLoc(SetAt(e, loc, x), loc) && At(SetAt(e, loc, x), loc) == x
    decreases |loc|
  {
    if loc != [] { AtSetAt(e.children[loc[0]], loc[1..], x); }
  }

  lemma {:induction false} AtElsewhere(e: Element, loc: Loc, x: Element, other: Loc)
    requires IsLoc(e, loc) && !(loc <= other) && !(other <= loc)
    ensures IsLoc(SetAt(e, loc, x), other) <==> IsLoc(e, other)
    ensures IsLoc(e, other) ==> At(SetAt(e, loc, x), other) == At(e, other)
    decreases |loc|
  {
    if loc[0] == other[0] {
      assert loc[1..] <= other[1..] ==> loc <= other;
      assert other[1..] <= loc[1..] ==> other <= loc;
      AtElsewhere(e.children[loc[0]], loc[1..], x, other[1..]);
    }
  }

  lemma {:induction false} AtAppend(e: Element, loc: Loc, more: Loc)
    requires IsLoc(e, loc)
    ensures IsLoc(e, loc + more) <==> IsLoc(At(e, loc), more)
    ensures IsLoc(e, loc + more) ==> At(e, loc + more) == At(At(e, loc), more)
    decreases |loc|
  {
    if loc == [] {
      assert loc + more == more;
    } else {
      assert (loc + more)[1..] == loc[1..] + more;
      AtAppend(e.children[loc[0]], loc[1..], more);
    }
  }

  // ----- Names

  /** How often a name occurs in a tree. */
  function Occurs(e: Element, name: string): nat
    decreases e, |e.children| + 1
  {
    (if e.name == name then 1 else 0) + OccursBelow(e, |e.children|, name)
  }

  function OccursBelow(e: Element, n: nat, name: string): nat
    requires n <= |e.children|
    decreases e, n
  {
    if n == 0 then 0 else OccursBelow(e, n - 1, name) + Occurs(e.children[n - 1], name)
  }

  ghost predicate UniqueNames(e: Element) {
    forall n :: Occurs(e, n) <= 1
  }

  lemma {:induction false} OccursBelowUpdate(e: Element, i: nat, x: Element, n: nat, name: string)
    requires i < |e.children| && n <= |e.children|
    ensures OccursBelow(e.(children := e.children[i := x]), n, name)
         == OccursBelow(e, n, name) + if i < n then Occurs(x, name) - Occurs(e.children[i], name) else 0
  {
    if n > 0 { OccursBelowUpdate(e, i, x, n - 1, name); }
  }

  lemma {:induction false} OccursChild(e: Element, i: nat, n: nat, name: string)
    requires i < n <= |e.children|
    ensures Occurs(e.children[i], name) <= OccursBelow(e, n, name)
  {
    if i < n - 1 { OccursChild(e, i, n - 1, name); }
  }

  /** Replacing a subtree exchanges its names and no others. */
  lemma {:induction false} OccursSetAt(e: Element, loc: Loc, x: Element, name: string)
    requires IsLoc(e, loc)
    ensures Occurs(At(e, loc), name) <= Occurs(e, name)
    ensures Occurs(SetAt(e, loc, x), name) == Occurs(e, name) - Occurs(At(e, loc), name) + Occurs(x, name)
    decreases |loc|
  {
    if loc != [] {
      var i := loc[0];
      OccursSetAt(e.children[i], loc[1..], x, name);
      OccursBelowUpdate(e, i, SetAt(e.children[i], loc[1..], x), |e.children|, name);
      OccursChild(e, i, |e.children|, name);
    }
  }

  // ----- Physical locations

  /** The physical locations of a tree, with their processes, each as often as it occurs. */
  function PhyBag(e: Element, level: nat): multiset<Element>
    decreases e, |e.children| + 1
  {
    if level >= PHYLOC_LEVEL then multiset{e} else ChildPhys(e, level, |e.children|)
  }

  function ChildPhys(e: Element, level: nat, n: nat): multiset<Element>
    requires n <= |e.children|
    decreases e, n
  {
    if n == 0 then multiset{} else ChildPhys(e, level, n - 1) + PhyBag(e.children[n - 1], level + 1)
  }

  lemma BagShift<T>(a: multiset<T>, gone: multiset<T>, added: multiset<T>, more: multiset<T>)
    requires gone <= a
    ensures gone <= a + more && (a - gone + added) + more == (a + more) - gone + added
  {
  }

  lemma BagLast<T>(a: multiset<T>, gone: multiset<T>, added: multiset<T>)
    ensures gone <= a + gone && a + added == (a + gone) - gone + added
  {
  }

  lemma {:induction false} ChildPhysUpdate(e: Element, level: nat, i: nat, x: Element, n: nat)
    requires i < |e.children| && n <= |e.children|
    ensures var e' := e.(children := e.children[i := x]);
      ChildPhys(e', level, n)
      == if i < n then ChildPhys(e, level, n) - PhyBag(e.children[i], level + 1) + PhyBag(x, level + 1)
         else ChildPhys(e, level, n)
    ensures i < n ==> PhyBag(e.children[i], level + 1) <= ChildPhys(e, level, n)
  {
    if n > 0 {
      ChildPhysUpdate(e, level, i, x, n - 1);
      ChildPhysLast(e.(children := e.children[i := x]), e, level, i, n, PhyBag(e.children[i], level + 1), PhyBag(x, level + 1));
    }
  }

  /** One child more: the exchange stays what it was, or is that of this child. */
  lemma ChildPhysLast(e': Element, e: Element, level: nat, i: nat, n: nat, gone: multiset<Element>, added: multiset<Element>)
    requires 0 < n <= |e.children| == |e'.children|
    requires i < n - 1 ==> gone <= ChildPhys(e, level, n - 1)
    requires ChildPhys(e', level, n - 1) == if i < n - 1 then ChildPhys(e, level, n - 1) - gone + added else ChildPhys(e, level, n - 1)
    requires i == n - 1 ==> gone == PhyBag(e.children[n - 1], level + 1) && added == PhyBag(e'.children[n - 1], level + 1)
    requires i != n - 1 ==> e'.children[n - 1] == e.children[n - 1]
    ensures ChildPhys(e', level, n) == if i < n then ChildPhys(e, level, n) - gone + added else ChildPhys(e, level, n)
    ensures i < n ==> gone <= ChildPhys(e, level, n)
  {
    if i == n - 1 {
      BagLast(ChildPhys(e, level, n - 1), gone, added);
    } else if i < n - 1 {
      BagShift(ChildPhys(e, level, n - 1), gone, added, PhyBag(e.children[n - 1], level + 1));
    }
  }

  lemma BagNested<T>(a: multiset<T>, part: multiset<T>, gone: multiset<T>, added: multiset<T>)
    requires gone <= part <= a
    ensures gone <= a && a - part + (part - gone + added) == a - gone + added
  {
  }

  lemma PhysSetChild(e: Element, level: nat, i: nat, child: Element, gone: multiset<Element>, added: multiset<Element>)
    requires i < |e.children| && level < PHYLOC_LEVEL && gone <= PhyBag(e.children[i], level + 1)
    requires PhyBag(child, level + 1) == PhyBag(e.children[i], level + 1) - gone + added
    ensures gone <= PhyBag(e, level)
    ensures PhyBag(e.(children := e.children[i := child]), level) == PhyBag(e, level) - gone + added
  {
    ChildPhysUpdate(e, level, i, child, |e.children|);
    BagNested(PhyBag(e, level), PhyBag(e.children[i], level + 1), gone, added);
  }

  /** Replacing a subtree above the processes exchanges its physical locations and no others. */
  lemma {:induction false} PhysSetAt(e: Element, level: nat, loc: Loc, x: Element)
    requires IsLoc(e, loc) && level + |loc| <= PHYLOC_LEVEL
    ensures PhyBag(At(e, loc), level + |loc|) <= PhyBag(e, level)
    ensures PhyBag(SetAt(e, loc, x), level)
         == PhyBag(e, level) - PhyBag(At(e, loc), level + |loc|) + PhyBag(x, level + |loc|)
    decreases |loc|
  {
    if loc != [] {
      var i := loc[0];
      PhysSetAt(e.children[i], level + 1, loc[1..], x);
      var gone, added := PhyBag(At(e, loc), level + |loc|), PhyBag(x, level + |loc|);
      PhysSetChild(e, level, i, SetAt(e.children[i], loc[1..], x), gone, added);
    }
  }

  /** The physical locations of a network location are its children. */
  lemma {:induction false} PhysOfNetLoc(nl: Element, n: nat)
    requires n <= |nl.children|
    ensures ChildPhys(nl, NETLOC_LEVEL, n) == multiset(nl.children[..n])
  {
    if n > 0 {
      PhysOfNetLoc(nl, n - 1);
      assert nl.children[..n] == nl.children[..n - 1] + [nl.children[n - 1]];
    }
  }
}
