/** The shape of the network graph: the edges of the tree below the deployment, and a component per domain. */
module ScenarioGraph {
  import opened ScenarioTree
  import opened ScenarioIndex

  /** The node brings an edge to its parent. */
  predicate HasEdge(n: Node) {
    |n.place| > DOMAIN_LEVEL && n.parentName != ""
  }

  predicate Joins(n: Node, a: string, b: string) {
    HasEdge(n) && ((a, b) == (n.parentName, n.name) || (a, b) == (n.name, n.parentName))
  }

  /** Nodes that join the same two names agree on the weight. */
  ghost predicate Coherent(nodes: seq<Node>) {
    forall n, m, a, b :: n in nodes && m in nodes && Joins(n, a, b) && Joins(m, a, b) ==> Weight(n) == Weight(m)
  }

  lemma {:induction false} GraphArcs(nodes: seq<Node>, a: string, b: string)
    requires Coherent(nodes)
    ensures var g := GraphOf(NO_GRAPH, nodes);
      && ((a, b) in g.arcs <==> exists n :: n in nodes && Joins(n, a, b))
      && (forall n :: n in nodes && Joins(n, a, b) ==> g.arcs[(a, b)] == Weight(n))
  {
    if nodes != [] {
      var last := nodes[|nodes| - 1];
      var rest := nodes[..|nodes| - 1];
      assert nodes == rest + [last];
      assert Coherent(rest);
      GraphArcs(rest, a, b);
      var before, after := GraphOf(NO_GRAPH, rest), GraphOf(NO_GRAPH, nodes);
      if Joins(last, a, b) {
        assert (a, b) in after.arcs && after.arcs[(a, b)] == Weight(last);
      } else {
        assert (a, b) in after.arcs <==> (a, b) in before.arcs;
      }
    }
  }

  lemma {:induction false} GraphVertices(nodes: seq<Node>, a: string)
    ensures a in GraphOf(NO_GRAPH, nodes).vertices <==> exists n :: n in nodes && |n.place| >= DOMAIN_LEVEL && n.name == a
  {
    if nodes != [] {
      GraphVertices(nodes[..|nodes| - 1], a);
      assert nodes == nodes[..|nodes| - 1] + [nodes[|nodes| - 1]];
    }
  }

  // ----- The edges of the tree

  /** The element at one place is the parent of the element at the other. */
  predicate IsEdge(up: Loc, down: Loc) {
    |down| == |up| + 1 && up == down[..|up|]
  }

  /** A node that joins two names stands for the tree edge between the elements of those names. */
  lemma JoinsIsEdge(root: Element, n: Node, up: Loc, down: Loc)
    requires UniqueNames(root) && n in NodesOf(root) && IsLoc(root, up) && IsLoc(root, down)
    requires HasEdge(n) && n.parentName == At(root, up).name && n.name == At(root, down).name
    ensures n == NodeAt(root, down) && IsEdge(up, down)
  {
    NodesAreThePlaces(root, n);
    PlaceOfName(root, n.place, down);
    PrefixIsLoc(root, down, |down| - 1);
    PlaceOfName(root, up, down[..|down| - 1]);
  }

  lemma PlaceOf(root: Element, n: Node)
    requires n in NodesOf(root) && HasEdge(n)
    ensures IsLoc(root, n.place) && n == NodeAt(root, n.place)
    ensures IsLoc(root, n.place[..|n.place| - 1]) && At(root, n.place[..|n.place| - 1]).name == n.parentName
  {
    NodesAreThePlaces(root, n);
    PrefixIsLoc(root, n.place, |n.place| - 1);
  }

  lemma TreeIsCoherent(root: Element)
    requires UniqueNames(root)
    ensures Coherent(NodesOf(root))
  {
    forall n, m, a, b | n in NodesOf(root) && m in NodesOf(root) && Joins(n, a, b) && Joins(m, a, b)
      ensures Weight(n) == Weight(m)
    {
      PlaceOf(root, n);
      PlaceOf(root, m);
      var up := n.place[..|n.place| - 1];
      if m.name == n.name {
        JoinsIsEdge(root, m, up, n.place);
      } else {
        JoinsIsEdge(root, m, n.place, up);
      }
    }
  }

  /** The arcs are exactly the edges of the tree below the deployment whose upper end has a name, in
      both directions; those to the common zone and to a default location weigh nothing, the others one. */
  lemma ArcsAreTreeEdges(root: Element, a: string, b: string)
    requires UniqueNames(root)
    ensures var g := GraphOf(NO_GRAPH, NodesOf(root));
      && ((a, b) in g.arcs <==> exists down :: TreeEdge(root, down, a, b) || TreeEdge(root, down, b, a))
      && (forall down :: TreeEdge(root, down, a, b) || TreeEdge(root, down, b, a) ==>
          (b, a) in g.arcs && g.arcs[(a, b)] == g.arcs[(b, a)] ==
          if (|down| == ZONE_LEVEL && At(root, down).kind == "COMMON") || (|down| == NETLOC_LEVEL && At(root, down).kind == "DEFAULT")
          then 0 else 1)
  {
    TreeIsCoherent(root);
    GraphArcs(NodesOf(root), a, b);
    GraphArcs(NodesOf(root), b, a);
    if (a, b) in GraphOf(NO_GRAPH, NodesOf(root)).arcs {
      var n :| n in NodesOf(root) && Joins(n, a, b);
      PlaceOf(root, n);
      assert TreeEdge(root, n.place, a, b) || TreeEdge(root, n.place, b, a);
    }
    forall down | TreeEdge(root, down, a, b) || TreeEdge(root, down, b, a)
      ensures Joins(NodeAt(root, down), a, b) && Joins(NodeAt(root, down), b, a) && NodeAt(root, down) in NodesOf(root)
    {
      NodesAreThePlaces(root, NodeAt(root, down));
    }
  }

  /** The element at a place is named lower, its parent upper, and both lie below the deployment. */
  predicate TreeEdge(root: Element, down: Loc, upper: string, lower: string) {
    IsLoc(root, down) && |down| > DOMAIN_LEVEL && At(root, down).name == lower && ParentName(root, down) == upper != ""
  }

  // ----- Connection

  ghost predicate IsWalk(g: Graph, w: seq<string>) {
    |w| >= 1 && forall i :: 0 <= i < |w| - 1 ==> (w[i], w[i + 1]) in g.arcs
  }

  ghost predicate Connected(g: Graph, a: string, b: string) {
    exists w :: IsWalk(g, w) && w[0] == a && w[|w| - 1] == b
  }

  /** The way from an element up to its domain. */
  function Climb(root: Element, loc: Loc): (w: seq<string>)
    requires IsLoc(root, loc) && |loc| >= DOMAIN_LEVEL
    ensures |w| == |loc| && w[0] == At(root, loc).name
    decreases |loc|
  {
    if |loc| == DOMAIN_LEVEL then [At(root, loc).name] else
      PrefixIsLoc(root, loc, |loc| - 1);
      [At(root, loc).name] + Climb(root, loc[..|loc| - 1])
  }

  function DomainName(root: Element, loc: Loc): string
    requires IsLoc(root, loc) && |loc| >= DOMAIN_LEVEL
  {
    PrefixIsLoc(root, loc, DOMAIN_LEVEL);
    At(root, loc[..DOMAIN_LEVEL]).name
  }

  lemma {:induction false} ClimbIsWalk(root: Element, loc: Loc)
    requires UniqueNames(root) && Occurs(root, "") == 0 && IsLoc(root, loc) && |loc| >= DOMAIN_LEVEL
    ensures var g := GraphOf(NO_GRAPH, NodesOf(root)); var w := Climb(root, loc);
      && w[|w| - 1] == DomainName(root, loc)
      && forall i :: 0 <= i < |w| - 1 ==> (w[i], w[i + 1]) in g.arcs && (w[i + 1], w[i]) in g.arcs
    decreases |loc|
  {
    if |loc| == DOMAIN_LEVEL {
      assert loc[..DOMAIN_LEVEL] == loc;
    } else {
      var up := loc[..|loc| - 1];
      PrefixIsLoc(root, loc, |loc| - 1);
      ClimbIsWalk(root, up);
      assert up[..DOMAIN_LEVEL] == loc[..DOMAIN_LEVEL];
      OccursSetAt(root, up, At(root, up), At(root, up).name);
      ArcsAreTreeEdges(root, At(root, up).name, At(root, loc).name);
      assert TreeEdge(root, loc, At(root, up).name, At(root, loc).name);
    }
  }

  function Turned(w: seq<string>): (r: seq<string>)
    ensures |r| == |w| && forall i :: 0 <= i < |w| ==> r[i] == w[|w| - 1 - i]
  {
    seq(|w|, i requires 0 <= i < |w| => w[|w| - 1 - i])
  }

  /** An arc does not leave a domain. */
  lemma ArcKeepsDomain(root: Element, loc: Loc, b: string) returns (next: Loc)
    requires UniqueNames(root) && IsLoc(root, loc) && |loc| >= DOMAIN_LEVEL
    requires (At(root, loc).name, b) in GraphOf(NO_GRAPH, NodesOf(root)).arcs
    ensures IsLoc(root, next) && |next| >= DOMAIN_LEVEL && At(root, next).name == b
    ensures DomainName(root, next) == DomainName(root, loc)
  {
    var a := At(root, loc).name;
    ArcsAreTreeEdges(root, a, b);
    var down :| TreeEdge(root, down, a, b) || TreeEdge(root, down, b, a);
    var up := down[..|down| - 1];
    PrefixIsLoc(root, down, |down| - 1);
    assert up[..DOMAIN_LEVEL] == down[..DOMAIN_LEVEL];
    if TreeEdge(root, down, a, b) {
      PlaceOfName(root, up, loc);
      next := down;
    } else {
      PlaceOfName(root, down, loc);
      next := up;
    }
  }

  lemma {:induction false} WalkKeepsDomain(root: Element, loc: Loc, w: seq<string>) returns (end: Loc)
    requires UniqueNames(root) && IsLoc(root, loc) && |loc| >= DOMAIN_LEVEL
    requires IsWalk(GraphOf(NO_GRAPH, NodesOf(root)), w) && w[0] == At(root, loc).name
    ensures IsLoc(root, end) && |end| >= DOMAIN_LEVEL && At(root, end).name == w[|w| - 1]
    ensures DomainName(root, end) == DomainName(root, loc)
    decreases |w|
  {
    if |w| == 1 {
      end := loc;
    } else {
      assert (w[0], w[1]) in GraphOf(NO_GRAPH, NodesOf(root)).arcs;
      var next := ArcKeepsDomain(root, loc, w[1]);
      assert forall i :: 0 <= i < |w[1..]| - 1 ==> (w[1..][i], w[1..][i + 1]) == (w[i + 1], w[i + 2]);
      end := WalkKeepsDomain(root, next, w[1..]);
    }
  }

  /** Two ways that end at the same place make a walk from the start of one to the start of the other. */
  lemma WalksMeet(g: Graph, u: seq<string>, v: seq<string>)
    requires u != [] && v != [] && u[|u| - 1] == v[|v| - 1]
    requires forall i :: 0 <= i < |u| - 1 ==> (u[i], u[i + 1]) in g.arcs
    requires forall i :: 0 <= i < |v| - 1 ==> (v[i + 1], v[i]) in g.arcs
    ensures Connected(g, u[0], v[0])
  {
    var w := u + Turned(v)[1..];
    forall i | 0 <= i < |w| - 1 ensures (w[i], w[i + 1]) in g.arcs {
      if i >= |u| - 1 {
        var k := |v| - 1 - (i - (|u| - 1)) - 1;
        assert w[i] == v[k + 1] && w[i + 1] == v[k];
      }
    }
    assert IsWalk(g, w) && w[0] == u[0] && w[|w| - 1] == v[0];
  }

  /** Two elements below the deployment are connected exactly when they lie in the same domain. */
  lemma ConnectedIsSameDomain(root: Element, a: Loc, b: Loc)
    requires UniqueNames(root) && Occurs(root, "") == 0
    requires IsLoc(root, a) && IsLoc(root, b) && |a| >= DOMAIN_LEVEL && |b| >= DOMAIN_LEVEL
    ensures Connected(GraphOf(NO_GRAPH, NodesOf(root)), At(root, a).name, At(root, b).name)
            <==> DomainName(root, a) == DomainName(root, b)
  {
    var g := GraphOf(NO_GRAPH, NodesOf(root));
    if DomainName(root, a) == DomainName(root, b) {
      ClimbIsWalk(root, a);
      ClimbIsWalk(root, b);
      WalksMeet(g, Climb(root, a), Climb(root, b));
    } else if Connected(g, At(root, a).name, At(root, b).name) {
      NoWayAcross(root, a, b);
    }
  }

  lemma NoWayAcross(root: Element, a: Loc, b: Loc)
    requires UniqueNames(root) && IsLoc(root, a) && IsLoc(root, b) && |a| >= DOMAIN_LEVEL && |b| >= DOMAIN_LEVEL
    ensures Connected(GraphOf(NO_GRAPH, NodesOf(root)), At(root, a).name, At(root, b).name)
            ==> DomainName(root, a) == DomainName(root, b)
  {
    var g := GraphOf(NO_GRAPH, NodesOf(root));
    if Connected(g, At(root, a).name, At(root, b).name) {
      var w :| IsWalk(g, w) && w[0] == At(root, a).name && w[|w| - 1] == At(root, b).name;
      var end := WalkKeepsDomain(root, a, w);
      PlaceOfName(root, end, b);
    }
  }
}
