/** The index beside the scenario tree: nodes by name and by type, and the weighted network graph. */
module ScenarioIndex {
  import opened ScenarioTree

  /** A node of the index. The context lists the names of the ancestors, level by level from the
      deployment down to the physical location, the element itself included above processes. */
  datatype Node = Node(name: string, nodeType: string, place: Loc, parentName: string, context: seq<string>)

  type NameIndex = map<string, Node>
  type TypeIndex = map<string, NameIndex>

  /** The arcs of the network graph and their weights. */
  datatype Graph = Graph(vertices: set<string>, arcs: map<(string, string), int>)

  const NO_GRAPH := Graph({}, map[])

  // ----- What the parser does with one element

  function AddName(m: NameIndex, n: Node): NameIndex {
    m[n.name := n]
  }

  function OfType(m: TypeIndex, t: string): NameIndex {
    if t in m then m[t] else map[]
  }

  function AddType(m: TypeIndex, n: Node): TypeIndex {
    m[n.nodeType := OfType(m, n.nodeType)[n.name := n]]
  }

  /** The weight of the arc above an element: nothing above default zones and locations. */
  function Weight(n: Node): int {
    if (|n.place| == ZONE_LEVEL && n.nodeType == "COMMON") || (|n.place| == NETLOC_LEVEL && n.nodeType == "DEFAULT")
    then 0 else 1
  }

  /** The deployment is no vertex, and domains have no parent in the graph. */
  function AddVertex(g: Graph, n: Node): Graph {
    if |n.place| < DOMAIN_LEVEL then g
    else
      var vertices := g.vertices + {n.name};
      if |n.place| == DOMAIN_LEVEL || n.parentName == "" then Graph(vertices, g.arcs)
      else Graph(vertices, g.arcs[(n.parentName, n.name) := Weight(n)][(n.name, n.parentName) := Weight(n)])
  }

  // ----- The order of parsing

  function NodeOf(e: Element, loc: Loc, up: string, trail: seq<string>): Node {
    Node(e.name, e.kind, loc, up, Extended(trail, loc, e.name))
  }

  function Extended(trail: seq<string>, loc: Loc, name: string): seq<string> {
    if |loc| <= PHYLOC_LEVEL then trail + [name] else trail
  }

  /** The nodes of a tree found at loc under an element named up, each parent before its children. */
  function Nodes(e: Element, loc: Loc, up: string, trail: seq<string>): seq<Node>
    decreases e, |e.children| + 1
  {
    [NodeOf(e, loc, up, trail)] + ChildNodes(e, loc, Extended(trail, loc, e.name), |e.children|)
  }

  /** The nodes of the first n subtrees. */
  function ChildNodes(e: Element, loc: Loc, trail: seq<string>, n: nat): seq<Node>
    requires n <= |e.children|
    decreases e, n
  {
    if n == 0 then [] else ChildNodes(e, loc, trail, n - 1) + Nodes(e.children[n - 1], loc + [n - 1], e.name, trail)
  }

  function NodesOf(root: Element): seq<Node> {
    Nodes(root, [], "", [])
  }

  function IndexNames(m: NameIndex, nodes: seq<Node>): NameIndex {
    if nodes == [] then m else AddName(IndexNames(m, nodes[..|nodes| - 1]), nodes[|nodes| - 1])
  }

  function IndexTypes(m: TypeIndex, nodes: seq<Node>): TypeIndex {
    if nodes == [] then m else AddType(IndexTypes(m, nodes[..|nodes| - 1]), nodes[|nodes| - 1])
  }

  function GraphOf(g: Graph, nodes: seq<Node>): Graph {
    if nodes == [] then g else AddVertex(GraphOf(g, nodes[..|nodes| - 1]), nodes[|nodes| - 1])
  }

  // ----- What a node should be, read off the tree

  /** The names of the ancestors of a place, read off the tree. */
  function Ancestors(root: Element, loc: Loc): (names: seq<string>)
    requires IsLoc(root, loc)
    ensures |names| == 1 + if |loc| <= PHYLOC_LEVEL then |loc| else PHYLOC_LEVEL
  {
    var n := 1 + if |loc| <= PHYLOC_LEVEL then |loc| else PHYLOC_LEVEL;
    seq(n, l requires 0 <= l < n => PrefixIsLoc(root, loc, l); At(root, loc[..l]).name)
  }

  lemma {:induction false} PrefixIsLoc(e: Element, loc: Loc, l: nat)
    requires IsLoc(e, loc) && l <= |loc|
    ensures IsLoc(e, loc[..l])
    decreases |loc|
  {
    if l > 0 {
      assert loc[..l][1..] == loc[1..][..l - 1];
      PrefixIsLoc(e.children[loc[0]], loc[1..], l - 1);
    }
  }

  function ParentName(root: Element, loc: Loc): string
    requires IsLoc(root, loc)
  {
    if loc == [] then "" else
      PrefixIsLoc(root, loc, |loc| - 1);
      At(root, loc[..|loc| - 1]).name
  }

  /** The node an element should have: its own name and type, its place, its parent and its ancestors. */
  function NodeAt(root: Element, loc: Loc): Node
    requires IsLoc(root, loc)
  {
    Node(At(root, loc).name, At(root, loc).kind, loc, ParentName(root, loc), Ancestors(root, loc))
  }

  lemma AtChild(root: Element, loc: Loc, i: nat)
    requires IsLoc(root, loc) && i < |At(root, loc).children|
    ensures IsLoc(root, loc + [i]) && At(root, loc + [i]) == At(root, loc).children[i]
  {
    AtAppend(root, loc, [i]);
  }

  /** The context grows by one name at each step down, as far as the physical location. */
  lemma AncestorsStep(root: Element, loc: Loc, i: nat)
    requires IsLoc(root, loc) && i < |At(root, loc).children|
    ensures IsLoc(root, loc + [i])
    ensures Ancestors(root, loc + [i]) == Extended(Ancestors(root, loc), loc + [i], At(root, loc).children[i].name)
    ensures ParentName(root, loc + [i]) == At(root, loc).name
  {
    AtChild(root, loc, i);
    PrefixesOf(loc, i);
    var before, after := Ancestors(root, loc), Ancestors(root, loc + [i]);
    forall l | 0 <= l < |before| ensures before[l] == after[l] {
      assert (loc + [i])[..l] == loc[..l];
    }
    SameOrLonger(before, after, At(root, loc).children[i].name);
  }

  lemma SameOrLonger(a: seq<string>, b: seq<string>, last: string)
    requires |a| <= |b| <= |a| + 1 && (forall l :: 0 <= l < |a| ==> a[l] == b[l]) && (|b| > |a| ==> b[|a|] == last)
    ensures b == if |b| > |a| then a + [last] else a
  {
  }

  lemma PrefixesOf(loc: Loc, i: nat)
    ensures (loc + [i])[..|loc|] == loc && (loc + [i])[..|loc| + 1] == loc + [i]
    ensures forall l :: 0 <= l <= |loc| ==> (loc + [i])[..l] == loc[..l]
  {
  }

  /** The node of a subtree, as its parser is called. */
  ghost predicate Called(root: Element, e: Element, loc: Loc, up: string, trail: seq<string>) {
    IsLoc(root, loc) && e == At(root, loc) && NodeOf(e, loc, up, trail) == NodeAt(root, loc)
  }

  lemma CalledChild(root: Element, e: Element, loc: Loc, up: string, trail: seq<string>, i: nat)
    requires Called(root, e, loc, up, trail) && i < |e.children|
    ensures Called(root, e.children[i], loc + [i], e.name, Extended(trail, loc, e.name))
  {
    AtChild(root, loc, i);
    AncestorsStep(root, loc, i);
  }

  function NodesBelow(e: Element, loc: Loc, trail: seq<string>, i: nat): seq<Node>
    requires i < |e.children|
  {
    Nodes(e.children[i], loc + [i], e.name, trail)
  }

  lemma {:induction false} ChildNodesIn(e: Element, loc: Loc, trail: seq<string>, k: nat, n: Node)
    requires k <= |e.children|
    ensures n in ChildNodes(e, loc, trail, k) <==> exists i :: 0 <= i < k && n in NodesBelow(e, loc, trail, i)
  {
    if k > 0 {
      var before, last := ChildNodes(e, loc, trail, k - 1), NodesBelow(e, loc, trail, k - 1);
      ChildNodesIn(e, loc, trail, k - 1, n);
      InConcat(before, last, n);
      assert ChildNodes(e, loc, trail, k) == before + last;
    }
  }

  lemma InConcat(a: seq<Node>, b: seq<Node>, n: Node)
    ensures n in a + b <==> n in a || n in b
  {
  }

  /** Every place in a subtree has its node among those parsed. */
  lemma {:induction false} NodesComplete(root: Element, e: Element, loc: Loc, up: string, trail: seq<string>, more: Loc)
    requires Called(root, e, loc, up, trail) && IsLoc(e, more)
    ensures IsLoc(root, loc + more) && NodeAt(root, loc + more) in Nodes(e, loc, up, trail)
    decreases |more|
  {
    if more == [] {
      assert loc + more == loc;
    } else {
      var i := more[0];
      CalledChild(root, e, loc, up, trail, i);
      NodesComplete(root, e.children[i], loc + [i], e.name, Extended(trail, loc, e.name), more[1..]);
      assert loc + [i] + more[1..] == loc + more;
      ChildNodesIn(e, loc, Extended(trail, loc, e.name), |e.children|, NodeAt(root, loc + more));
      assert NodeAt(root, loc + more) in NodesBelow(e, loc, Extended(trail, loc, e.name), i);
    }
  }

  /** Every node parsed from a subtree is that of its place. */
  lemma {:induction false} NodesSound(root: Element, e: Element, loc: Loc, up: string, trail: seq<string>, n: Node)
    requires Called(root, e, loc, up, trail) && n in Nodes(e, loc, up, trail)
    ensures IsLoc(root, n.place) && n == NodeAt(root, n.place)
    decreases e
  {
    if n != NodeOf(e, loc, up, trail) {
      var trail' := Extended(trail, loc, e.name);
      InConcat([NodeOf(e, loc, up, trail)], ChildNodes(e, loc, trail', |e.children|), n);
      ChildNodesIn(e, loc, trail', |e.children|, n);
      var i: nat :| i < |e.children| && n in NodesBelow(e, loc, trail', i);
      CalledChild(root, e, loc, up, trail, i);
      NodesSound(root, e.children[i], loc + [i], e.name, trail', n);
    }
  }

  lemma RootCalled(root: Element)
    ensures Called(root, root, [], "", [])
  {
  }

  /** The nodes of a tree are exactly those of its places. */
  lemma NodesAreThePlaces(root: Element, n: Node)
    ensures n in NodesOf(root) <==> IsLoc(root, n.place) && n == NodeAt(root, n.place)
  {
    RootCalled(root);
    if n in NodesOf(root) {
      NodesSound(root, root, [], "", [], n);
    }
    if IsLoc(root, n.place) && n == NodeAt(root, n.place) {
      NodesComplete(root, root, [], "", [], n.place);
      assert [] + n.place == n.place;
    }
  }

  // ----- Names

  function Named(nodes: seq<Node>, name: string): nat {
    if nodes == [] then 0 else Named(nodes[..|nodes| - 1], name) + if nodes[|nodes| - 1].name == name then 1 else 0
  }

  lemma {:induction false} NamedAppend(a: seq<Node>, b: seq<Node>, name: string)
    ensures Named(a + b, name) == Named(a, name) + Named(b, name)
  {
    if b == [] {
      assert a + b == a;
    } else {
      assert (a + b)[..|a + b| - 1] == a + b[..|b| - 1];
      NamedAppend(a, b[..|b| - 1], name);
    }
  }

  /** A name is borne by as many nodes as elements. */
  lemma {:induction false} NodesNamed(e: Element, loc: Loc, up: string, trail: seq<string>, name: string)
    ensures Named(Nodes(e, loc, up, trail), name) == Occurs(e, name)
    decreases e, |e.children| + 1
  {
    var n := NodeOf(e, loc, up, trail);
    ChildNodesNamed(e, loc, Extended(trail, loc, e.name), |e.children|, name);
    NamedAppend([n], ChildNodes(e, loc, Extended(trail, loc, e.name), |e.children|), name);
    assert [n][..0] == [];
  }

  lemma {:induction false} ChildNodesNamed(e: Element, loc: Loc, trail: seq<string>, n: nat, name: string)
    requires n <= |e.children|
    ensures Named(ChildNodes(e, loc, trail, n), name) == OccursBelow(e, n, name)
    decreases e, n
  {
    if n > 0 {
      ChildNodesNamed(e, loc, trail, n - 1, name);
      NodesNamed(e.children[n - 1], loc + [n - 1], e.name, trail, name);
      NamedAppend(ChildNodes(e, loc, trail, n - 1), Nodes(e.children[n - 1], loc + [n - 1], e.name, trail), name);
    }
  }

  lemma {:induction false} NamedCount(nodes: seq<Node>, n: Node)
    requires n in nodes
    ensures Named(nodes, n.name) >= 1
  {
    if nodes[|nodes| - 1] != n { NamedCount(nodes[..|nodes| - 1], n); }
  }

  // ----- The index agrees with the nodes

  /** With unique names the name index holds exactly the nodes, each under its own name. */
  lemma {:induction false} NameIndexExact(nodes: seq<Node>)
    requires forall n :: Named(nodes, n) <= 1
    ensures var m := IndexNames(map[], nodes);
      && (forall n :: n in nodes ==> n.name in m && m[n.name] == n)
      && (forall k :: k in m ==> m[k] in nodes && m[k].name == k)
  {
    if nodes != [] {
      var last := nodes[|nodes| - 1];
      var rest := nodes[..|nodes| - 1];
      forall n ensures Named(rest, n) <= 1 { assert Named(nodes, n) <= 1; }
      NameIndexExact(rest);
      forall n | n in rest ensures n.name != last.name {
        NamedCount(rest, n);
        assert Named(nodes, last.name) <= 1;
      }
      assert nodes == rest + [last];
    }
  }

  /** A row of the type index holds only nodes of its type, under their names. */
  lemma {:induction false} TypeRowsSound(nodes: seq<Node>, t: string)
    ensures forall k :: k in OfType(IndexTypes(map[], nodes), t) ==>
      var n := OfType(IndexTypes(map[], nodes), t)[k]; n in nodes && n.name == k && n.nodeType == t
  {
    if nodes != [] {
      var last := nodes[|nodes| - 1];
      var rest := nodes[..|nodes| - 1];
      TypeRowsSound(rest, t);
      assert nodes == rest + [last];
      var before, after := OfType(IndexTypes(map[], rest), t), OfType(IndexTypes(map[], nodes), t);
      assert after == if t == last.nodeType then before[last.name := last] else before;
    }
  }

  /** With unique names the row of a type holds all the nodes of that type. */
  lemma {:induction false} TypeRowsComplete(nodes: seq<Node>, t: string)
    requires forall n :: Named(nodes, n) <= 1
    ensures var m := OfType(IndexTypes(map[], nodes), t);
      forall n :: n in nodes && n.nodeType == t ==> n.name in m && m[n.name] == n
  {
    if nodes != [] {
      var last := nodes[|nodes| - 1];
      var rest := nodes[..|nodes| - 1];
      forall n ensures Named(rest, n) <= 1 { assert Named(nodes, n) <= 1; }
      TypeRowsComplete(rest, t);
      forall n | n in rest ensures n.name != last.name {
        NamedCount(rest, n);
        assert Named(nodes, last.name) <= 1;
      }
      assert nodes == rest + [last];
    }
  }

  /** Index agreement: with unique names the name index maps exactly the names of the tree, each to
      the node read off the tree at its place, and each type row is the part of the name index of
      that type. */
  lemma IndexAgrees(root: Element)
    requires UniqueNames(root)
    ensures var names, types := IndexNames(map[], NodesOf(root)), IndexTypes(map[], NodesOf(root));
      && (forall loc :: IsLoc(root, loc) ==> At(root, loc).name in names && names[At(root, loc).name] == NodeAt(root, loc))
      && (forall k :: k in names ==> IsLoc(root, names[k].place) && names[k] == NodeAt(root, names[k].place) && names[k].name == k)
      && (forall t, k :: k in OfType(types, t) <==> k in names && names[k].nodeType == t)
      && (forall t, k :: k in OfType(types, t) ==> OfType(types, t)[k] == names[k])
  {
    var nodes := NodesOf(root);
    forall n ensures Named(nodes, n) <= 1 { NodesNamed(root, [], "", [], n); }
    NameIndexExact(nodes);
    var names := IndexNames(map[], nodes);
    forall loc | IsLoc(root, loc)
      ensures At(root, loc).name in names && names[At(root, loc).name] == NodeAt(root, loc)
    {
      NodesAreThePlaces(root, NodeAt(root, loc));
    }
    forall k | k in names
      ensures IsLoc(root, names[k].place) && names[k] == NodeAt(root, names[k].place) && names[k].name == k
    {
      NodesAreThePlaces(root, names[k]);
    }
    var types := IndexTypes(map[], nodes);
    forall t, k
      ensures k in OfType(types, t) <==> k in names && names[k].nodeType == t
      ensures k in OfType(types, t) ==> OfType(types, t)[k] == names[k]
    {
      TypeRowsSound(nodes, t);
      TypeRowsComplete(nodes, t);
    }
  }

  /** With unique names two places do not share a name. */
  lemma PlaceOfName(root: Element, a: Loc, b: Loc)
    requires UniqueNames(root) && IsLoc(root, a) && IsLoc(root, b) && At(root, a).name == At(root, b).name
    ensures a == b
  {
    IndexAgrees(root);
    assert NodeAt(root, a) == NodeAt(root, b);
  }
}
