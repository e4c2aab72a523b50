/** The scenario model object: the tree it holds, the index it rebuilds by parsing, and its edits. */
module ScenarioModel {
  import opened Common
  import opened ScenarioTree
  import opened ScenarioIndex
  import opened ScenarioEdits

  const NODE_UE := "UE"
  const NODE_EDGE_APP := "EDGE-APP"
  const DEPLOYMENT := "DEPLOYMENT"
  const UE_THROUGHPUT := 1000

  /** A request to add or remove an element. */
  datatype ScenarioNode = ScenarioNode(kind: string, parent: string, physical: Option<Element>)

  datatype Error =
    | NoRequest | ParentMissing | BadParent | NoPhysical | NoName | BadKind | NameTaken
    | NotFound | HasProcesses | InGroup | Unsupported

  // ----- The two indexes

  class NodeMap {
    var nameMap: NameIndex
    var typeMap: TypeIndex

    constructor ()
      ensures nameMap == map[] && typeMap == map[]
    {
      nameMap, typeMap := map[], map[];
    }

    method AddNode(n: Node)
      modifies this
      ensures nameMap == AddName(old(nameMap), n) && typeMap == AddType(old(typeMap), n)
    {
      nameMap := nameMap[n.name := n];
      if n.nodeType !in typeMap {
        typeMap := typeMap[n.nodeType := map[]];
      }
      typeMap := typeMap[n.nodeType := typeMap[n.nodeType][n.name := n]];
    }

    function FindByName(name: string): Option<Node>
      reads this
    {
      if name in nameMap then Some(nameMap[name]) else None
    }
  }

  class NetworkGraph {
    var graph: Graph

    constructor ()
      ensures graph == NO_GRAPH
    {
      graph := NO_GRAPH;
    }

    method AddNode(node: string, parent: string, zeroDist: bool)
      modifies this
      ensures graph.vertices == old(graph.vertices) + {node}
      ensures parent == "" ==> graph.arcs == old(graph.arcs)
      ensures parent != "" ==> var d := if zeroDist then 0 else 1;
        graph.arcs == old(graph.arcs)[(parent, node) := d][(node, parent) := d]
    {
      graph := graph.(vertices := graph.vertices + {node});
      if parent != "" {
        var distance := 0;
        if !zeroDist {
          distance := 1;
        }
        graph := graph.(arcs := graph.arcs[(parent, node) := distance]);
        graph := graph.(arcs := graph.arcs[(node, parent) := distance]);
      }
    }
  }

  function IsDefaultZone(kind: string): bool {
    kind == "COMMON"
  }

  function IsDefaultNetLoc(kind: string): bool {
    kind == "DEFAULT"
  }

  // ----- Parsing in parts

  lemma {:induction false} FoldsAppend(m: NameIndex, t: TypeIndex, g: Graph, a: seq<Node>, b: seq<Node>)
    ensures IndexNames(IndexNames(m, a), b) == IndexNames(m, a + b)
    ensures IndexTypes(IndexTypes(t, a), b) == IndexTypes(t, a + b)
    ensures GraphOf(GraphOf(g, a), b) == GraphOf(g, a + b)
  {
    if b == [] {
      assert a + b == a;
    } else {
      assert (a + b)[..|a + b| - 1] == a + b[..|b| - 1];
      FoldsAppend(m, t, g, a, b[..|b| - 1]);
    }
  }

  /** Parsing one more child adds its nodes to those parsed. */
  lemma ParsedChild(m: NameIndex, t: TypeIndex, g: Graph, n: Node, e: Element, loc: Loc, trail: seq<string>, i: nat)
    requires i < |e.children|
    ensures var before, below := [n] + ChildNodes(e, loc, trail, i), NodesBelow(e, loc, trail, i);
      var after := [n] + ChildNodes(e, loc, trail, i + 1);
      && IndexNames(IndexNames(m, before), below) == IndexNames(m, after)
      && IndexTypes(IndexTypes(t, before), below) == IndexTypes(t, after)
      && GraphOf(GraphOf(g, before), below) == GraphOf(g, after)
  {
    var before, below := [n] + ChildNodes(e, loc, trail, i), NodesBelow(e, loc, trail, i);
    FoldsAppend(m, t, g, before, below);
    assert before + below == [n] + ChildNodes(e, loc, trail, i + 1);
  }

  lemma FoldsOne(m: NameIndex, t: TypeIndex, g: Graph, n: Node)
    ensures IndexNames(m, [n]) == AddName(m, n)
    ensures IndexTypes(t, [n]) == AddType(t, n)
    ensures GraphOf(g, [n]) == AddVertex(g, n)
  {
    assert [n][..0] == [];
  }

  // ----- Searching a list of physical locations

  predicate Matches(pl: Element, name: string, ueOnly: bool) {
    pl.name == name && (ueOnly ==> pl.kind == NODE_UE)
  }

  /** The first match at or after k, and 0 if there is none. */
  function SearchFrom(list: seq<Element>, name: string, ueOnly: bool, k: nat): (i: nat)
    requires k <= |list|
    ensures list != [] ==> i < |list|
    decreases |list| - k
  {
    if k == |list| then 0 else if Matches(list[k], name, ueOnly) then k else SearchFrom(list, name, ueOnly, k + 1)
  }

  method Search(list: seq<Element>, name: string, ueOnly: bool) returns (index: nat)
    ensures index == SearchFrom(list, name, ueOnly, 0)
    ensures list != [] ==> index < |list|
  {
    index := 0;
    for i := 0 to |list|
      invariant index == 0
      invariant SearchFrom(list, name, ueOnly, 0) == SearchFrom(list, name, ueOnly, i)
    {
      if Matches(list[i], name, ueOnly) {
        return i;
      }
    }
  }

  /** Where names are distinct, the search meets the element of that name, if it is of the kind sought. */
  lemma {:induction false} SearchMeets(list: seq<Element>, i: nat, ueOnly: bool, k: nat)
    requires k <= i < |list|
    requires forall j :: 0 <= j < |list| && j != i ==> list[j].name != list[i].name
    ensures SearchFrom(list, list[i].name, ueOnly, k) == if Matches(list[i], list[i].name, ueOnly) then i else 0
    decreases |list| - k
  {
    if k < i {
      SearchMeets(list, i, ueOnly, k + 1);
    } else if !Matches(list[i], list[i].name, ueOnly) {
      SearchMisses(list, list[i].name, ueOnly, k + 1);
    }
  }

  lemma {:induction false} SearchMisses(list: seq<Element>, name: string, ueOnly: bool, k: nat)
    requires k <= |list| && forall j :: k <= j < |list| ==> !Matches(list[j], name, ueOnly)
    ensures SearchFrom(list, name, ueOnly, k) == 0
    decreases |list| - k
  {
    if k < |list| { SearchMisses(list, name, ueOnly, k + 1); }
  }

  lemma DifferAtEnd(loc: Loc, i: nat, j: nat)
    requires i != j
    ensures loc + [i] != loc + [j]
  {
    assert (loc + [i])[|loc|] == i && (loc + [j])[|loc|] == j;
  }

  lemma SiblingsDiffer(root: Element, loc: Loc, i: nat, j: nat)
    requires UniqueNames(root) && IsLoc(root, loc) && i < |At(root, loc).children| && j < |At(root, loc).children|
    requires i != j
    ensures At(root, loc).children[i].name != At(root, loc).children[j].name
  {
    AtChild(root, loc, i);
    AtChild(root, loc, j);
    if At(root, loc).children[i].name == At(root, loc).children[j].name {
      DifferAtEnd(loc, i, j);
      PlaceOfName(root, loc + [i], loc + [j]);
    }
  }

  // ----- The place above

  /** The place above one that is not the root, and the index taken below it. */
  lemma AboveIsLoc(root: Element, loc: Loc)
    requires IsLoc(root, loc) && loc != []
    ensures var up, i := loc[..|loc| - 1], loc[|loc| - 1];
      && IsLoc(root, up) && i < |At(root, up).children| && At(root, up).children[i] == At(root, loc)
  {
    var up, i := loc[..|loc| - 1], loc[|loc| - 1];
    PrefixIsLoc(root, loc, |loc| - 1);
    assert up + [i] == loc;
    AtAppend(root, up, [i]);
  }

  // ----- Preparing an added element

  /** An added UE: the name as default id, default rates for the directions that have none, no processes. */
  function Prepared(pl: Element): Element {
    var id := if pl.data.id == "" then pl.name else pl.data.id;
    var netChar := match pl.data.netChar
      case None => None
      case Some(nc) =>
        Some(nc.(
          throughputDl := if nc.throughputDl == 0 then UE_THROUGHPUT else nc.throughputDl,
          throughputUl := if nc.throughputUl == 0 then UE_THROUGHPUT else nc.throughputUl));
    pl.(data := pl.data.(id := id, netChar := netChar), children := [])
  }

  /** What is added has the name, type and other data asked for; its name is its id if none is asked for, a rate that
      is missing is 1000, and it has no processes. */
  lemma PreparedMeans(pl: Element)
    ensures var p := Prepared(pl);
      && p.name == pl.name && p.kind == pl.kind && p.children == []
      && p.data.id == (if pl.data.id != "" then pl.data.id else pl.name)
      && p.data == pl.data.(id := p.data.id, netChar := p.data.netChar) && (p.data.netChar.Some? <==> pl.data.netChar.Some?)
      && (pl.data.netChar.Some? ==>
          var asked, given := pl.data.netChar.value, p.data.netChar.value;
          && given == asked.(throughputDl := given.throughputDl, throughputUl := given.throughputUl)
          && given.throughputDl == (if asked.throughputDl == 0 then 1000 else asked.throughputDl)
          && given.throughputUl == (if asked.throughputUl == 0 then 1000 else asked.throughputUl))
  {
  }

  /** The checks made of a physical location to add, and the defaults written into it. */
  method ValidatePL(request: Element) returns (pl: Element, err: Option<Error>)
    ensures err.None? <==> request.name != "" && request.kind == NODE_UE
    ensures err == Some(NoName) <==> request.name == ""
    ensures err.Some? ==> err == Some(NoName) || err == Some(BadKind)
    ensures err.None? ==> pl == Prepared(request).(children := request.children)
  {
    pl, err := request, None;
    if pl.data.id == "" {
      pl := pl.(data := pl.data.(id := pl.name));
    }
    if pl.name == "" {
      return pl, Some(NoName);
    }
    if pl.kind != NODE_UE {
      return pl, Some(BadKind);
    }
    if pl.data.netChar.Some? {
      var nc := pl.data.netChar.value;
      if nc.throughputDl == 0 {
        nc := nc.(throughputDl := UE_THROUGHPUT);
      }
      if nc.throughputUl == 0 {
        nc := nc.(throughputUl := UE_THROUGHPUT);
      }
      pl := pl.(data := pl.data.(netChar := Some(nc)));
    }
  }

  // ----- Element types of an update

  /** The level of the elements an update of a type is meant for. */
  function LevelOf(kind: string): Option<nat> {
    if kind == "OPERATOR" || kind == "OPERATOR-CELLULAR" then Some(DOMAIN_LEVEL)
    else if kind == "ZONE" then Some(ZONE_LEVEL)
    else if kind == "POA" || kind == "POA-CELLULAR" then Some(NETLOC_LEVEL)
    else if kind == "DC" || kind == "EDGE" || kind == "FOG" || kind == "UE" then Some(PHYLOC_LEVEL)
    else if kind == "CLOUD-APP" || kind == "EDGE-APP" || kind == "UE-APP" then Some(PROCESS_LEVEL)
    else None
  }

  /** An update is meant for these types of elements. */
  lemma KindsOfUpdates(kind: string)
    ensures LevelOf(kind).Some? <==>
      kind in {"OPERATOR", "OPERATOR-CELLULAR", "ZONE", "POA", "POA-CELLULAR", "DC", "EDGE", "FOG", "UE", "CLOUD-APP",
               "EDGE-APP", "UE-APP"}
  {
  }

  function WithNetChar(root: Element, loc: Loc, nc: Option<NetChar>): Element
    requires IsLoc(root, loc)
  {
    SetAt(root, loc, At(root, loc).(data := At(root, loc).data.(netChar := nc)))
  }

  /** The same element, but for what is below its children and its data. */
  predicate SameHead(a: Element, b: Element) {
    a.name == b.name && a.kind == b.kind && |a.children| == |b.children|
  }

  /** Writing characteristics: the element has them, its other data and its children are as before, and so is
      everything but the way down to it at every other place. */
  lemma NetCharWritten(root: Element, loc: Loc, nc: Option<NetChar>)
    requires IsLoc(root, loc)
    ensures var r := WithNetChar(root, loc, nc);
      && IsLoc(r, loc) && SameHead(At(r, loc), At(root, loc)) && At(r, loc).children == At(root, loc).children
      && At(r, loc).data.netChar == nc
      && At(r, loc).data == At(root, loc).data.(netChar := At(r, loc).data.netChar)
    ensures forall other {:trigger IsLoc(root, other)} :: IsLoc(WithNetChar(root, loc, nc), other) <==> IsLoc(root, other)
    ensures forall other {:trigger IsLoc(root, other)} :: IsLoc(root, other) && other != loc ==>
      var e, f := At(WithNetChar(root, loc, nc), other), At(root, other);
      SameHead(e, f) && e.data == f.data && (!(other <= loc) ==> e == f)
  {
    AtSetAt(root, loc, At(root, loc).(data := At(root, loc).data.(netChar := nc)));
    forall other
      ensures IsLoc(WithNetChar(root, loc, nc), other) <==> IsLoc(root, other)
      ensures IsLoc(root, other) && other != loc ==>
        var e, f := At(WithNetChar(root, loc, nc), other), At(root, other);
        SameHead(e, f) && e.data == f.data && (!(other <= loc) ==> e == f)
    {
      DataWritten(root, loc, At(root, loc).data.(netChar := nc), other);
    }
  }

  lemma {:induction false} DataWritten(e: Element, loc: Loc, d: Data, other: Loc)
    requires IsLoc(e, loc)
    ensures IsLoc(SetAt(e, loc, At(e, loc).(data := d)), other) <==> IsLoc(e, other)
    ensures IsLoc(e, other) && other != loc ==>
      var a, b := At(SetAt(e, loc, At(e, loc).(data := d)), other), At(e, other);
      SameHead(a, b) && a.data == b.data && (!(other <= loc) ==> a == b)
    decreases |loc|
  {
    if loc != [] && other != [] && loc[0] == other[0] {
      DataWritten(e.children[loc[0]], loc[1..], d, other[1..]);
      assert other != loc ==> other[1..] != loc[1..];
      assert other[1..] <= loc[1..] ==> other <= loc;
    }
  }

  // ----- What the edits keep

  lemma LeveledAppend(e: Element, x: Element, level: nat)
    requires Leveled(e, level) && level < PROCESS_LEVEL && Leveled(x, level + 1)
    ensures Leveled(Append(e, x), level)
  {
  }

  lemma LeveledRemove(e: Element, i: nat, level: nat)
    requires Leveled(e, level) && i < |e.children|
    ensures Leveled(Remove(e, i), level)
  {
  }

  /** The tree keeps its levels, and what is at the root beside its children, under an append. */
  lemma AppendKeepsShape(root: Element, loc: Loc, x: Element)
    requires Leveled(root, DEPLOYMENT_LEVEL) && IsLoc(root, loc) && |loc| < PROCESS_LEVEL && Leveled(x, |loc| + 1)
    ensures Leveled(AppendAt(root, loc, x), DEPLOYMENT_LEVEL) && AppendAt(root, loc, x).kind == root.kind
  {
    LeveledAt(root, DEPLOYMENT_LEVEL, loc);
    LeveledAppend(At(root, loc), x, |loc|);
    LeveledSetAt(root, DEPLOYMENT_LEVEL, loc, Append(At(root, loc), x));
  }

  lemma RemoveKeepsShape(root: Element, loc: Loc, i: nat)
    requires Leveled(root, DEPLOYMENT_LEVEL) && IsLoc(root, loc) && i < |At(root, loc).children|
    ensures Leveled(RemoveAt(root, loc, i), DEPLOYMENT_LEVEL) && RemoveAt(root, loc, i).kind == root.kind
  {
    LeveledAt(root, DEPLOYMENT_LEVEL, loc);
    LeveledRemove(At(root, loc), i, |loc|);
    LeveledSetAt(root, DEPLOYMENT_LEVEL, loc, Remove(At(root, loc), i));
  }

  /** Adding an element without children under a name that is not indexed keeps names unique. */
  lemma AddedUe(root: Element, loc: Loc, pl: Element)
    requires Leveled(root, DEPLOYMENT_LEVEL) && IsLoc(root, loc) && |loc| == NETLOC_LEVEL && pl.children == []
    requires pl.name !in IndexNames(map[], NodesOf(root))
    ensures Leveled(AppendAt(root, loc, pl), DEPLOYMENT_LEVEL) && AppendAt(root, loc, pl).kind == root.kind
    ensures UniqueNames(root) ==> UniqueNames(AppendAt(root, loc, pl))
  {
    AppendKeepsShape(root, loc, pl);
    if UniqueNames(root) {
      IndexedNames(root, pl.name);
      forall n ensures Occurs(AppendAt(root, loc, pl), n) <= 1 {
        OccursAppendAt(root, loc, pl, n);
      }
    }
  }

  lemma RemovedUe(root: Element, loc: Loc, i: nat)
    requires Leveled(root, DEPLOYMENT_LEVEL) && IsLoc(root, loc) && i < |At(root, loc).children|
    ensures Leveled(RemoveAt(root, loc, i), DEPLOYMENT_LEVEL) && RemoveAt(root, loc, i).kind == root.kind
    ensures UniqueNames(root) ==> UniqueNames(RemoveAt(root, loc, i))
  {
    RemoveKeepsShape(root, loc, i);
    if UniqueNames(root) {
      forall n ensures Occurs(RemoveAt(root, loc, i), n) <= 1 {
        OccursRemoveAt(root, loc, i, n);
      }
    }
  }

  /** Rewriting network characteristics keeps the shape, the names and every node of the index. */
  lemma UpdatedElement(root: Element, loc: Loc, nc: Option<NetChar>)
    requires Leveled(root, DEPLOYMENT_LEVEL) && IsLoc(root, loc)
    ensures var r := WithNetChar(root, loc, nc);
      && Leveled(r, DEPLOYMENT_LEVEL) && r.kind == root.kind && NodesOf(r) == NodesOf(root)
      && (UniqueNames(root) ==> UniqueNames(r))
  {
    var e := At(root, loc);
    var e' := e.(data := e.data.(netChar := nc));
    LeveledAt(root, DEPLOYMENT_LEVEL, loc);
    LeveledSetAt(root, DEPLOYMENT_LEVEL, loc, e');
    NodesKeepData(root, loc, e'.data, [], "", []);
    if UniqueNames(root) {
      forall n ensures Occurs(WithNetChar(root, loc, nc), n) <= 1 {
        NodesNamed(root, [], "", [], n);
        NodesNamed(WithNetChar(root, loc, nc), [], "", [], n);
      }
    }
  }

  lemma {:induction false} IndexedNode(nodes: seq<Node>, name: string)
    requires name in IndexNames(map[], nodes)
    ensures IndexNames(map[], nodes)[name] in nodes && IndexNames(map[], nodes)[name].name == name
  {
    if nodes[|nodes| - 1].name != name {
      IndexedNode(nodes[..|nodes| - 1], name);
    }
  }

  // ----- The move as a function of the tree

  /** What a move does to the tree: the physical location found at loc goes to dst. */
  function MoveOf(root: Element, loc: Loc, dst: Loc): Element
    requires IsLoc(root, loc) && |loc| == PHYLOC_LEVEL && IsLoc(root, dst) && |dst| == NETLOC_LEVEL
  {
    AboveIsLoc(root, loc);
    var src := loc[..NETLOC_LEVEL];
    if src == dst then root
    else Moved(root, src, dst, At(root, loc), SearchFrom(At(root, src).children, At(root, loc).name, true, 0))
  }

  /** The element cut out of the old location: the one moved, unless that is no UE, and then the first. */
  lemma CutOut(root: Element, loc: Loc)
    requires UniqueNames(root) && IsLoc(root, loc) && |loc| == PHYLOC_LEVEL
    ensures IsLoc(root, loc[..NETLOC_LEVEL])
    ensures SearchFrom(At(root, loc[..NETLOC_LEVEL]).children, At(root, loc).name, true, 0)
         == if At(root, loc).kind == NODE_UE then loc[NETLOC_LEVEL] else 0
  {
    AboveIsLoc(root, loc);
    var src, i := loc[..NETLOC_LEVEL], loc[NETLOC_LEVEL];
    forall j: nat | j < |At(root, src).children| && j != i ensures At(root, src).children[j].name != At(root, loc).name {
      SiblingsDiffer(root, src, i, j);
    }
    SearchMeets(At(root, src).children, i, true, 0);
  }

  /** A move to another location conserves the physical locations with their processes, and keeps
      names unique, exactly when it moves a UE or the first of its location. */
  lemma MoveConservesIffUeOrFirst(root: Element, loc: Loc, dst: Loc)
    requires UniqueNames(root) && IsLoc(root, loc) && |loc| == PHYLOC_LEVEL && IsLoc(root, dst) && |dst| == NETLOC_LEVEL
    requires loc[..NETLOC_LEVEL] != dst
    ensures var proper := At(root, loc).kind == NODE_UE || loc[NETLOC_LEVEL] == 0;
      && (PhyBag(MoveOf(root, loc, dst), DEPLOYMENT_LEVEL) == PhyBag(root, DEPLOYMENT_LEVEL) <==> proper)
      && (UniqueNames(MoveOf(root, loc, dst)) <==> proper)
  {
    CutOut(root, loc);
    AboveIsLoc(root, loc);
    var src, i, x := loc[..NETLOC_LEVEL], loc[NETLOC_LEVEL], At(root, loc);
    var k := if x.kind == NODE_UE then i else 0;
    MoveConservesExactly(root, src, dst, x, k);
    if k != i {
      SiblingsDiffer(root, src, i, k);
      OccursMoved(root, src, dst, x, k, x.name);
      NameOccurs(root, loc);
      NotBelow(root, src, k, i);
    } else {
      forall n ensures Occurs(MoveOf(root, loc, dst), n) <= 1 {
        OccursMoved(root, src, dst, x, k, n);
      }
    }
  }

  function Plain(name: string, kind: string, children: seq<Element>): Element {
    Element(name, kind, Data("", None, Legacy(0, 0, 0, 0.0), Legacy(0, 0, 0, 0.0), Legacy(0, 0, 0, 0.0), ""), children)
  }

  /** Moving the fog node that is second in its location cuts out the UE before it instead. */
  lemma MovedFogLosesUe()
    ensures var here := Plain("poa1", "POA", [Plain("ue1", "UE", []), Plain("fog1", "FOG", [])]);
      var there := Plain("poa2", "POA", []);
      var root := Plain("s", DEPLOYMENT, [Plain("op", "OPERATOR", [Plain("z", "ZONE", [here, there])])]);
      && IsLoc(root, [0, 0, 0, 1]) && IsLoc(root, [0, 0, 1])
      && var r := MoveOf(root, [0, 0, 0, 1], [0, 0, 1]);
      && IsLoc(r, [0, 0, 0]) && At(r, [0, 0, 0]).children == [Plain("fog1", "FOG", [])]
      && IsLoc(r, [0, 0, 1]) && At(r, [0, 0, 1]).children == [Plain("fog1", "FOG", [])]
  {
    var ue, fog := Plain("ue1", "UE", []), Plain("fog1", "FOG", []);
    var here, there := Plain("poa1", "POA", [ue, fog]), Plain("poa2", "POA", []);
    var zone := Plain("z", "ZONE", [here, there]);
    var domain := Plain("op", "OPERATOR", [zone]);
    var root := Plain("s", DEPLOYMENT, [domain]);
    var loc: Loc, src: Loc, dst: Loc := [0, 0, 0, 1], [0, 0, 0], [0, 0, 1];
    WalkDown(root, [0, 0], zone);
    AtAppend(root, [0, 0], [0]);
    AtAppend(root, [0, 0], [1]);
    AtAppend(root, src, [1]);
    assert [0, 0] + [0] == src && [0, 0] + [1] == dst && src + [1] == loc;
    assert loc[..NETLOC_LEVEL] == src;
    SearchMisses(here.children, "fog1", true, 0);
    MovedSecond(root, loc, src, dst, here, there, ue, fog);
  }

  /** The second of two is moved, and the first is cut out. */
  lemma MovedSecond(root: Element, loc: Loc, src: Loc, dst: Loc, here: Element, there: Element, ue: Element, fog: Element)
    requires |loc| == PHYLOC_LEVEL && |dst| == NETLOC_LEVEL && loc[..NETLOC_LEVEL] == src != dst
    requires IsLoc(root, loc) && IsLoc(root, src) && IsLoc(root, dst) && At(root, loc) == fog
    requires At(root, src) == here && At(root, dst) == there && here.children == [ue, fog] && there.children == []
    requires SearchFrom(here.children, fog.name, true, 0) == 0
    ensures var r := MoveOf(root, loc, dst);
      && IsLoc(r, src) && At(r, src).children == [fog]
      && IsLoc(r, dst) && At(r, dst).children == [fog]
  {
    MoveTouchesOnlyTwo(root, src, dst, fog, 0, src);
    assert SwapRemove([ue, fog], 0) == [fog];
  }

  lemma WalkDown(root: Element, loc: Loc, e: Element)
    requires |loc| == 2 && loc[0] < |root.children| && loc[1] < |root.children[loc[0]].children|
    requires e == root.children[loc[0]].children[loc[1]]
    ensures IsLoc(root, loc) && At(root, loc) == e
  {
    var c := root.children[loc[0]];
    var rest: Loc := loc[1..];
    assert rest[0] == loc[1] && rest[1..] == [];
    assert IsLoc(e, rest[1..]) && At(e, rest[1..]) == e;
    assert At(c, rest) == At(c.children[rest[0]], rest[1..]);
  }

  lemma NameOccurs(root: Element, loc: Loc)
    requires IsLoc(root, loc)
    ensures Occurs(root, At(root, loc).name) >= 1
  {
    OccursSetAt(root, loc, At(root, loc), At(root, loc).name);
  }

  /** With unique names a name does not occur in a sibling's subtree. */
  lemma NotBelow(root: Element, loc: Loc, k: nat, i: nat)
    requires UniqueNames(root) && IsLoc(root, loc) && i < |At(root, loc).children| && k < |At(root, loc).children| && k != i
    ensures Occurs(At(root, loc).children[k], At(root, loc).children[i].name) == 0
  {
    var e, name := At(root, loc), At(root, loc).children[i].name;
    OccursSetAt(root, loc, e, name);
    OccursTwo(e, k, i, |e.children|, name);
  }

  lemma {:induction false} OccursTwo(e: Element, k: nat, i: nat, n: nat, name: string)
    requires i < n <= |e.children| && k < n && k != i
    ensures Occurs(e.children[k], name) + Occurs(e.children[i], name) <= OccursBelow(e, n, name)
  {
    if k == n - 1 {
      OccursChild(e, i, n - 1, name);
    } else if i == n - 1 {
      OccursChild(e, k, n - 1, name);
    } else {
      OccursTwo(e, k, i, n - 1, name);
    }
  }

  /** After a UE moved, the index has it under the destination, with the destination's ancestors. */
  lemma MovedUeIndexed(root: Element, loc: Loc, dst: Loc)
    requires UniqueNames(root) && IsLoc(root, loc) && |loc| == PHYLOC_LEVEL && IsLoc(root, dst) && |dst| == NETLOC_LEVEL
    requires At(root, loc).kind == NODE_UE && loc[..NETLOC_LEVEL] != dst
    ensures var names := IndexNames(map[], NodesOf(MoveOf(root, loc, dst)));
      && At(root, loc).name in names
      && var n := names[At(root, loc).name];
      && n.place == dst + [|At(root, dst).children|]
      && n.parentName == At(root, dst).name
      && n.context == Ancestors(root, dst) + [At(root, loc).name]
      && IsLoc(MoveOf(root, loc, dst), n.place) && At(MoveOf(root, loc, dst), n.place) == At(root, loc)
  {
    var r, ue := MoveOf(root, loc, dst), At(root, loc);
    var src, i := loc[..NETLOC_LEVEL], loc[NETLOC_LEVEL];
    MoveConservesIffUeOrFirst(root, loc, dst);
    CutOut(root, loc);
    AboveIsLoc(root, loc);
    IndexAgrees(r);
    AtSetAt(root, dst, Append(At(root, dst), ue));
    var mid := AppendAt(root, dst, ue);
    AtElsewhere(root, dst, Append(At(root, dst), ue), src);
    AtElsewhere(mid, src, Remove(At(mid, src), i), dst);
    AtChild(r, dst, |At(root, dst).children|);
    AncestorsStep(r, dst, |At(root, dst).children|);
    AncestorsKept(root, dst, Append(At(root, dst), ue), dst);
    AncestorsKept(mid, src, Remove(At(mid, src), i), dst);
  }

  /** Rewriting the children of one element renames no ancestor. */
  lemma AncestorsKept(root: Element, loc: Loc, x: Element, other: Loc)
    requires IsLoc(root, loc) && IsLoc(root, other) && x.name == At(root, loc).name && |other| <= |loc| <= PHYLOC_LEVEL
    ensures IsLoc(SetAt(root, loc, x), other) && Ancestors(SetAt(root, loc, x), other) == Ancestors(root, other)
  {
    NameKept(root, loc, x, other);
    forall l | 0 <= l <= |other|
      ensures IsLoc(SetAt(root, loc, x), other[..l]) && IsLoc(root, other[..l])
      ensures At(SetAt(root, loc, x), other[..l]).name == At(root, other[..l]).name
    {
      PrefixIsLoc(root, other, l);
      NameKept(root, loc, x, other[..l]);
    }
  }

  lemma {:induction false} NameKept(root: Element, loc: Loc, x: Element, other: Loc)
    requires IsLoc(root, loc) && IsLoc(root, other) && x.name == At(root, loc).name && |other| <= |loc|
    ensures IsLoc(SetAt(root, loc, x), other) && At(SetAt(root, loc, x), other).name == At(root, other).name
    decreases |loc|
  {
    if other != [] && loc[0] == other[0] {
      NameKept(root.children[loc[0]], loc[1..], x, other[1..]);
    }
  }

  lemma MovedShape(root: Element, loc: Loc, dst: Loc)
    requires Leveled(root, DEPLOYMENT_LEVEL)
    requires IsLoc(root, loc) && |loc| == PHYLOC_LEVEL && IsLoc(root, dst) && |dst| == NETLOC_LEVEL
    ensures Leveled(MoveOf(root, loc, dst), DEPLOYMENT_LEVEL) && MoveOf(root, loc, dst).kind == root.kind
  {
    var src := loc[..NETLOC_LEVEL];
    if src != dst {
      AboveIsLoc(root, loc);
      MovedKeepsShape(root, loc, dst, SearchFrom(At(root, src).children, At(root, loc).name, true, 0));
    }
  }

  lemma MovedKeepsShape(root: Element, loc: Loc, dst: Loc, i: nat)
    requires Leveled(root, DEPLOYMENT_LEVEL) && IsLoc(root, loc) && IsLoc(root, dst) && |loc| == |dst| + 1 <= PROCESS_LEVEL
    requires loc[..|dst|] != dst
    ensures IsLoc(root, loc[..|dst|])
    ensures i < |At(root, loc[..|dst|]).children| ==>
      var r := Moved(root, loc[..|dst|], dst, At(root, loc), i); Leveled(r, DEPLOYMENT_LEVEL) && r.kind == root.kind
  {
    var src := loc[..|dst|];
    AboveIsLoc(root, loc);
    LeveledAt(root, DEPLOYMENT_LEVEL, loc);
    AppendKeepsShape(root, dst, At(root, loc));
    AtElsewhere(root, dst, Append(At(root, dst), At(root, loc)), src);
    if i < |At(root, src).children| {
      RemoveKeepsShape(AppendAt(root, dst, At(root, loc)), src, i);
    }
  }

  // ----- Moving a process

  /** The tree after the process at a place is moved to a physical location: the search is by name alone. */
  function ProcMoveOf(root: Element, loc: Loc, dst: Loc): Element
    requires IsLoc(root, loc) && |loc| == PROCESS_LEVEL && IsLoc(root, dst) && |dst| == PHYLOC_LEVEL
  {
    AboveIsLoc(root, loc);
    var src := loc[..PHYLOC_LEVEL];
    if src == dst then root
    else Moved(root, src, dst, At(root, loc), SearchFrom(At(root, src).children, At(root, loc).name, false, 0))
  }

  lemma ProcCutOut(root: Element, loc: Loc)
    requires UniqueNames(root) && IsLoc(root, loc) && |loc| == PROCESS_LEVEL
    ensures IsLoc(root, loc[..PHYLOC_LEVEL])
    ensures SearchFrom(At(root, loc[..PHYLOC_LEVEL]).children, At(root, loc).name, false, 0) == loc[PHYLOC_LEVEL]
    ensures loc[PHYLOC_LEVEL] < |At(root, loc[..PHYLOC_LEVEL]).children|
    ensures At(root, loc[..PHYLOC_LEVEL]).children[loc[PHYLOC_LEVEL]] == At(root, loc)
  {
    AboveIsLoc(root, loc);
    var src, i := loc[..PHYLOC_LEVEL], loc[PHYLOC_LEVEL];
    forall j: nat | j < |At(root, src).children| && j != i ensures At(root, src).children[j].name != At(root, loc).name {
      SiblingsDiffer(root, src, i, j);
    }
    SearchMeets(At(root, src).children, i, false, 0);
  }

  /** Moving a process loses none: names occur as often as before, the process is the last of its new
      location and the one cut out of the old. */
  lemma ProcMoveConserves(root: Element, loc: Loc, dst: Loc)
    requires UniqueNames(root) && IsLoc(root, loc) && |loc| == PROCESS_LEVEL && IsLoc(root, dst) && |dst| == PHYLOC_LEVEL
    ensures var r := ProcMoveOf(root, loc, dst);
      UniqueNames(r) && forall n :: Occurs(r, n) == Occurs(root, n)
    ensures var r, src := ProcMoveOf(root, loc, dst), loc[..PHYLOC_LEVEL];
      src != dst ==>
        && IsLoc(root, src) && loc[PHYLOC_LEVEL] < |At(root, src).children|
        && IsLoc(r, dst) && At(r, dst) == Append(At(root, dst), At(root, loc))
        && IsLoc(r, src) && At(r, src) == Remove(At(root, src), loc[PHYLOC_LEVEL])
  {
    var src, i := loc[..PHYLOC_LEVEL], loc[PHYLOC_LEVEL];
    ProcCutOut(root, loc);
    if src != dst {
      forall n ensures Occurs(ProcMoveOf(root, loc, dst), n) == Occurs(root, n) {
        OccursMoved(root, src, dst, At(root, loc), i, n);
      }
      MoveTouchesOnlyTwo(root, src, dst, At(root, loc), i, src);
    }
  }

  /** The nodes are not parsed again, so where the process moved its node keeps a place that is not its own:
      an index of the old tree is none of the new one. */
  lemma ProcMoveLeavesIndex(root: Element, loc: Loc, dst: Loc)
    requires UniqueNames(root) && IsLoc(root, loc) && |loc| == PROCESS_LEVEL && IsLoc(root, dst) && |dst| == PHYLOC_LEVEL
    requires loc[..PHYLOC_LEVEL] != dst
    ensures var names := IndexNames(map[], NodesOf(ProcMoveOf(root, loc, dst)));
      At(root, loc).name in names && names[At(root, loc).name].place == dst + [|At(root, dst).children|] != loc
  {
    var r, n := ProcMoveOf(root, loc, dst), |At(root, dst).children|;
    ProcMoveConserves(root, loc, dst);
    AtChild(r, dst, n);
    IndexAgrees(r);
    PrefixesOf(dst, n);
  }

  // ----- Adding, then removing

  /** Removing a UE right after adding it restores the exact tree. */
  lemma RemoveUndoesAdd(root: Element, loc: Loc, pl: Element)
    requires UniqueNames(root) && IsLoc(root, loc) && |loc| == NETLOC_LEVEL && pl.children == []
    requires pl.name !in IndexNames(map[], NodesOf(root))
    ensures var added := AppendAt(root, loc, pl);
      var names := IndexNames(map[], NodesOf(added));
      && UniqueNames(added) && pl.name in names && names[pl.name].place == loc + [|At(root, loc).children|]
      && IsLoc(added, loc)
      && var i := SearchFrom(At(added, loc).children, pl.name, false, 0);
      && i < |At(added, loc).children| && RemoveAt(added, loc, i) == root
  {
    var added, n := AppendAt(root, loc, pl), |At(root, loc).children|;
    IndexedNames(root, pl.name);
    forall k ensures Occurs(added, k) <= 1 { OccursAppendAt(root, loc, pl, k); }
    RemoveUndoesAppend(root, loc, pl);
    AtChild(added, loc, n);
    IndexAgrees(added);
    forall j: nat | j < |At(added, loc).children| && j != n ensures At(added, loc).children[j].name != pl.name {
      SiblingsDiffer(added, loc, n, j);
    }
    SearchMeets(At(added, loc).children, n, false, 0);
  }

  // ----- Listing

  /** The elements of a set in some order, each once. */
  method Listed(s: set<string>) returns (list: seq<string>)
    ensures forall x :: x in list <==> x in s
    ensures forall i, j :: 0 <= i < j < |list| ==> list[i] != list[j]
  {
    list := [];
    var rest := s;
    while rest != {}
      invariant rest <= s && forall x :: x in list <==> x in s - rest
      invariant forall i, j :: 0 <= i < j < |list| ==> list[i] != list[j]
      decreases rest
    {
      var x :| x in rest;
      OneMoreListed(list, x);
      rest := rest - {x};
      list := list + [x];
    }
  }

  lemma OneMoreListed(list: seq<string>, x: string)
    requires x !in list && forall i, j :: 0 <= i < j < |list| ==> list[i] != list[j]
    ensures forall i, j :: 0 <= i < j < |list + [x]| ==> (list + [x])[i] != (list + [x])[j]
  {
  }

  /** Some element bears the name, and is of one of the kinds. */
  ghost predicate Bears(root: Element, kinds: seq<string>, name: string) {
    exists loc :: HasName(root, loc, name) && (AsksAll(kinds) || At(root, loc).kind in kinds)
  }

  ghost predicate HasName(root: Element, loc: Loc, name: string) {
    IsLoc(root, loc) && At(root, loc).name == name
  }

  predicate AsksAll(kinds: seq<string>) {
    "" in kinds || "ANY" in kinds
  }

  ghost predicate InRows(t: TypeIndex, kinds: seq<string>, name: string) {
    exists j :: 0 <= j < |kinds| && name in OfType(t, kinds[j])
  }

  lemma MoreRows(t: TypeIndex, kinds: seq<string>, i: nat)
    requires i < |kinds|
    ensures forall k :: InRows(t, kinds[..i + 1], k) <==> InRows(t, kinds[..i], k) || k in OfType(t, kinds[i])
    ensures AsksAll(kinds[..i + 1]) <==> AsksAll(kinds[..i]) || kinds[i] == "" || kinds[i] == "ANY"
  {
    var less, more := kinds[..i], kinds[..i + 1];
    assert more == less + [kinds[i]];
    forall k ensures InRows(t, more, k) <==> InRows(t, less, k) || k in OfType(t, kinds[i]) {
      if InRows(t, less, k) {
        var j :| 0 <= j < i && k in OfType(t, less[j]);
        assert more[j] == less[j];
      }
      if k in OfType(t, kinds[i]) {
        assert more[i] == kinds[i];
      }
      if InRows(t, more, k) && k !in OfType(t, kinds[i]) {
        var j :| 0 <= j <= i && k in OfType(t, more[j]);
        assert less[j] == more[j];
      }
    }
  }

  lemma RowOf(root: Element, kind: string, name: string)
    requires UniqueNames(root)
    ensures var m := IndexNames(map[], NodesOf(root));
      && (name in OfType(IndexTypes(map[], NodesOf(root)), kind) <==> name in m && m[name].nodeType == kind)
      && (name in m ==> HasName(root, m[name].place, name))
      && forall loc :: HasName(root, loc, name) ==> name in m && m[name].nodeType == At(root, loc).kind
  {
    IndexAgrees(root);
    var m, t := IndexNames(map[], NodesOf(root)), IndexTypes(map[], NodesOf(root));
    forall loc | HasName(root, loc, name) ensures name in m && m[name].nodeType == At(root, loc).kind {
      assert m[name] == NodeAt(root, loc);
    }
  }

  /** The names indexed under some types are those of the elements of these types. */
  /** The names in the rows asked for, or in the whole index, are those that elements of the kinds bear. */
  lemma AllBear(root: Element, kinds: seq<string>, names: set<string>)
    requires UniqueNames(root)
    requires forall k :: k in names <==>
      if AsksAll(kinds) then k in IndexNames(map[], NodesOf(root)) else InRows(IndexTypes(map[], NodesOf(root)), kinds, k)
    ensures forall name :: name in names <==> Bears(root, kinds, name)
  {
    forall name ensures name in names <==> Bears(root, kinds, name) {
      NamesOfKinds(root, kinds, name);
    }
  }

  lemma NamesOfKinds(root: Element, kinds: seq<string>, name: string)
    requires UniqueNames(root)
    ensures Bears(root, kinds, name)
      <==> if AsksAll(kinds) then name in IndexNames(map[], NodesOf(root))
           else InRows(IndexTypes(map[], NodesOf(root)), kinds, name)
  {
    RowOf(root, "", name);
    if !AsksAll(kinds) && InRows(IndexTypes(map[], NodesOf(root)), kinds, name) {
      var j :| 0 <= j < |kinds| && name in OfType(IndexTypes(map[], NodesOf(root)), kinds[j]);
      RowOf(root, kinds[j], name);
    }
    if !AsksAll(kinds) && Bears(root, kinds, name) {
      var loc :| HasName(root, loc, name) && At(root, loc).kind in kinds;
      var j :| 0 <= j < |kinds| && kinds[j] == At(root, loc).kind;
      RowOf(root, kinds[j], name);
    }
  }

  // ----- The model object

  class Model {
    var scenario: Option<Element>
    var nodeMap: NodeMap
    var networkGraph: NetworkGraph

    function ScenarioNodes(): seq<Node>
      reads this
    {
      if scenario.None? then [] else NodesOf(scenario.value)
    }

    /** Both indexes are what parsing the present tree gives. */
    ghost predicate Indexed()
      reads this, nodeMap, networkGraph
    {
      && nodeMap.nameMap == IndexNames(map[], ScenarioNodes())
      && nodeMap.typeMap == IndexTypes(map[], ScenarioNodes())
      && networkGraph.graph == GraphOf(NO_GRAPH, ScenarioNodes())
    }

    ghost predicate Valid()
      reads this, nodeMap, networkGraph
    {
      && Indexed()
      && (scenario.Some? ==> Leveled(scenario.value, DEPLOYMENT_LEVEL) && scenario.value.kind == DEPLOYMENT)
    }

    ghost predicate Unique()
      reads this
    {
      scenario.Some? ==> UniqueNames(scenario.value)
    }

    constructor ()
      ensures Valid() && Unique() && scenario == None
      ensures fresh(nodeMap) && fresh(networkGraph)
    {
      scenario := None;
      nodeMap := new NodeMap();
      networkGraph := new NetworkGraph();
    }

    /** One element enters both indexes; the deployment is no vertex of the graph. */
    method ParseNode(e: Element, loc: Loc, up: string, trail: seq<string>)
      modifies nodeMap, networkGraph
      ensures nodeMap.nameMap == AddName(old(nodeMap.nameMap), NodeOf(e, loc, up, trail))
      ensures nodeMap.typeMap == AddType(old(nodeMap.typeMap), NodeOf(e, loc, up, trail))
      ensures networkGraph.graph == AddVertex(old(networkGraph.graph), NodeOf(e, loc, up, trail))
    {
      nodeMap.AddNode(Node(e.name, e.kind, loc, up, Extended(trail, loc, e.name)));
      if |loc| >= DOMAIN_LEVEL {
        var zeroDist := (|loc| == ZONE_LEVEL && IsDefaultZone(e.kind)) || (|loc| == NETLOC_LEVEL && IsDefaultNetLoc(e.kind));
        networkGraph.AddNode(e.name, if |loc| == DOMAIN_LEVEL then "" else up, zeroDist);
      }
    }

    /** An element and everything below it, each parent before its children. */
    method ParseElement(e: Element, loc: Loc, up: string, trail: seq<string>)
      modifies nodeMap, networkGraph
      ensures nodeMap.nameMap == IndexNames(old(nodeMap.nameMap), Nodes(e, loc, up, trail))
      ensures nodeMap.typeMap == IndexTypes(old(nodeMap.typeMap), Nodes(e, loc, up, trail))
      ensures networkGraph.graph == GraphOf(old(networkGraph.graph), Nodes(e, loc, up, trail))
      decreases e
    {
      ghost var m, t, g := nodeMap.nameMap, nodeMap.typeMap, networkGraph.graph;
      ghost var n := NodeOf(e, loc, up, trail);
      ParseNode(e, loc, up, trail);
      FoldsOne(m, t, g, n);
      var trail' := Extended(trail, loc, e.name);
      for i := 0 to |e.children|
        invariant nodeMap.nameMap == IndexNames(m, [n] + ChildNodes(e, loc, trail', i))
        invariant nodeMap.typeMap == IndexTypes(t, [n] + ChildNodes(e, loc, trail', i))
        invariant networkGraph.graph == GraphOf(g, [n] + ChildNodes(e, loc, trail', i))
      {
        ParseElement(e.children[i], loc + [i], e.name, trail');
        ParsedChild(m, t, g, n, e, loc, trail', i);
      }
    }

    /** Parsing rebuilds both indexes from nothing. */
    method ParseNodes()
      modifies this`nodeMap, this`networkGraph
      ensures fresh(nodeMap) && fresh(networkGraph)
      ensures Indexed()
    {
      nodeMap := new NodeMap();
      networkGraph := new NetworkGraph();
      if scenario.Some? {
        ParseElement(scenario.value, [], "", []);
      }
    }

    method SetScenario(s: Option<Element>)
      requires s.Some? ==> Leveled(s.value, DEPLOYMENT_LEVEL) && s.value.kind == DEPLOYMENT
      modifies this
      ensures Valid() && scenario == s
      ensures fresh(nodeMap) && fresh(networkGraph)
    {
      scenario := s;
      ParseNodes();
    }

    /** What a node found by name stands for. */
    lemma FoundNode(name: string)
      requires Valid() && name in nodeMap.nameMap
      ensures scenario.Some? && nodeMap.nameMap[name] in ScenarioNodes()
      ensures var n := nodeMap.nameMap[name];
        IsLoc(scenario.value, n.place) && n == NodeAt(scenario.value, n.place) && n.name == name
    {
      IndexedNode(ScenarioNodes(), name);
      NodesAreThePlaces(scenario.value, nodeMap.nameMap[name]);
    }

    /** The node of that name has that level, if there is one. */
    ghost predicate FoundAtLevel(name: string, level: nat)
      reads this, nodeMap
    {
      name in nodeMap.nameMap ==> |nodeMap.nameMap[name].place| == level
    }

    /** The node of that name exists and is a point of access. */
    ghost predicate IsPoa(name: string)
      reads this, nodeMap
    {
      name in nodeMap.nameMap && nodeMap.nameMap[name].nodeType in {"POA", "POA-CELLULAR"}
    }

    // ----- Adding and removing UEs

    method AddScenarioNode(node: Option<ScenarioNode>) returns (err: Option<Error>)
      requires Valid()
      requires node.Some? && IsPoa(node.value.parent) ==> FoundAtLevel(node.value.parent, NETLOC_LEVEL)
      modifies this
      ensures Valid() && (old(Unique()) ==> Unique())
      ensures err.Some? ==> scenario == old(scenario)
      ensures err == Some(NoRequest) <==> node.None?
      ensures err == Some(ParentMissing) <==> node.Some? && node.value.parent !in old(nodeMap.nameMap)
      ensures err == Some(Unsupported)
        <==> node.Some? && node.value.parent in old(nodeMap.nameMap) && node.value.kind != NODE_UE
      ensures err == Some(NameTaken) ==> node.value.physical.Some? && node.value.physical.value.name in old(nodeMap.nameMap)
      ensures err == Some(BadParent) ==> node.value.parent in old(nodeMap.nameMap) && !old(IsPoa(node.value.parent))
      ensures err == Some(NoPhysical) ==> node.value.physical.None?
      ensures err == Some(NoName) ==> node.value.physical.Some? && node.value.physical.value.name == ""
      ensures err == Some(BadKind) ==> node.value.physical.Some? && node.value.physical.value.kind != NODE_UE
      ensures err.Some? ==> err.value !in {NotFound, HasProcesses}
      ensures err.None?
        <==> node.Some? && node.value.kind == NODE_UE && node.value.parent in old(nodeMap.nameMap)
             && old(IsPoa(node.value.parent))
             && node.value.physical.Some? && node.value.physical.value.name != ""
             && node.value.physical.value.kind == NODE_UE
             && node.value.physical.value.name !in old(nodeMap.nameMap)
      ensures err.None? ==>
        var loc := old(nodeMap.nameMap)[node.value.parent].place;
        && old(scenario).Some? && IsLoc(old(scenario).value, loc) && |loc| == NETLOC_LEVEL
        && scenario == Some(AppendAt(old(scenario).value, loc, Prepared(node.value.physical.value)))
    {
      if node.None? {
        return Some(NoRequest);
      }
      var parentNode := nodeMap.FindByName(node.value.parent);
      if parentNode.None? {
        return Some(ParentMissing);
      }
      if node.value.kind != NODE_UE {
        return Some(Unsupported);
      }
      if parentNode.value.nodeType != "POA" && parentNode.value.nodeType != "POA-CELLULAR" {
        return Some(BadParent);
      }
      if node.value.physical.None? {
        return Some(NoPhysical);
      }
      var pl: Element;
      pl, err := ValidatePL(node.value.physical.value);
      if err.Some? {
        return;
      }
      if nodeMap.FindByName(pl.name).Some? {
        return Some(NameTaken);
      }
      pl := pl.(children := []);
      FoundNode(node.value.parent);
      AddedUe(scenario.value, parentNode.value.place, pl);
      scenario := Some(AppendAt(scenario.value, parentNode.value.place, pl));
      ParseNodes();
    }

    method RemoveScenarioNode(node: Option<ScenarioNode>) returns (err: Option<Error>)
      requires Valid()
      requires node.Some? && node.value.kind == NODE_UE && node.value.physical.Some?
        ==> FoundAtLevel(node.value.physical.value.name, PHYLOC_LEVEL)
      modifies this
      ensures Valid() && (old(Unique()) ==> Unique())
      ensures err.Some? ==> scenario == old(scenario)
      ensures err == Some(NoRequest) <==> node.None?
      ensures err == Some(Unsupported) <==> node.Some? && node.value.kind != NODE_UE
      ensures err == Some(NoPhysical) <==> node.Some? && node.value.kind == NODE_UE && node.value.physical.None?
      ensures err == Some(NotFound)
        <==> node.Some? && node.value.kind == NODE_UE && node.value.physical.Some?
             && node.value.physical.value.name !in old(nodeMap.nameMap)
      ensures err.Some? ==> err.value in {NoRequest, Unsupported, NoPhysical, NotFound, HasProcesses}
      ensures err.None? || err == Some(HasProcesses) ==>
        var loc := old(nodeMap.nameMap)[node.value.physical.value.name].place;
        && old(scenario).Some? && |loc| == PHYLOC_LEVEL && IsLoc(old(scenario).value, loc)
        && (err == Some(HasProcesses) <==> At(old(scenario).value, loc).children != [])
      ensures err.None? ==>
        var name := node.value.physical.value.name;
        var up := old(nodeMap.nameMap)[name].place[..NETLOC_LEVEL];
        && IsLoc(old(scenario).value, up)
        && var i := SearchFrom(At(old(scenario).value, up).children, name, false, 0);
        && i < |At(old(scenario).value, up).children|
        && scenario == Some(RemoveAt(old(scenario).value, up, i))
    {
      if node.None? {
        return Some(NoRequest);
      }
      if node.value.kind != NODE_UE {
        return Some(Unsupported);
      }
      if node.value.physical.None? {
        return Some(NoPhysical);
      }
      var name := node.value.physical.value.name;
      var n := nodeMap.FindByName(name);
      if n.None? {
        return Some(NotFound);
      }
      FoundNode(name);
      var root := scenario.value;
      if At(root, n.value.place).children != [] {
        return Some(HasProcesses);
      }
      AboveIsLoc(root, n.value.place);
      var nl := At(root, n.value.place[..NETLOC_LEVEL]);
      var index := Search(nl.children, n.value.name, false);
      RemovedUe(root, n.value.place[..NETLOC_LEVEL], index);
      scenario := Some(RemoveAt(root, n.value.place[..NETLOC_LEVEL], index));
      ParseNodes();
      return None;
    }

    // ----- Updating network characteristics

    /** An update rewrites one element and leaves the index, without parsing again, that of the new tree. */
    method UpdateNetChar(name: string, kind: string, nc: Option<NetChar>) returns (err: Option<Error>)
      requires Valid()
      requires kind == "SCENARIO" ==> scenario.Some?
      requires kind != "SCENARIO" && LevelOf(kind).Some? ==> FoundAtLevel(name, LevelOf(kind).value)
      modifies this`scenario
      ensures Valid() && (old(Unique()) ==> Unique())
      ensures err.Some? ==> scenario == old(scenario)
      ensures err == Some(NotFound) <==> kind != "SCENARIO" && name !in nodeMap.nameMap
      ensures err == Some(Unsupported) <==> kind != "SCENARIO" && name in nodeMap.nameMap && LevelOf(kind).None?
      ensures err.Some? ==> err == Some(NotFound) || err == Some(Unsupported)
      ensures err.None? ==>
        var loc := if kind == "SCENARIO" then [] else nodeMap.nameMap[name].place;
        && old(scenario).Some? && IsLoc(old(scenario).value, loc)
        && scenario == Some(WithNetChar(old(scenario).value, loc, nc))
    {
      if kind == "SCENARIO" {
        UpdatedElement(scenario.value, [], nc);
        scenario := Some(WithNetChar(scenario.value, [], nc));
        return None;
      }
      var n := nodeMap.FindByName(name);
      if n.None? {
        return Some(NotFound);
      }
      if LevelOf(kind).None? {
        return Some(Unsupported);
      }
      FoundNode(name);
      UpdatedElement(scenario.value, n.value.place, nc);
      scenario := Some(WithNetChar(scenario.value, n.value.place, nc));
      return None;
    }

    // ----- Moving

    /** What the code demands of a move: the node and the destination are of the kinds it casts them to. */
    ghost predicate Castable(nodeName: string, destName: string)
      reads this, nodeMap
    {
      nodeName in nodeMap.nameMap ==>
        if nodeMap.nameMap[nodeName].nodeType == NODE_EDGE_APP
        then FoundAtLevel(nodeName, PROCESS_LEVEL) && FoundAtLevel(destName, PHYLOC_LEVEL)
        else FoundAtLevel(nodeName, PHYLOC_LEVEL) && FoundAtLevel(destName, NETLOC_LEVEL)
    }

    /** The named process is in a mobility group. */
    ghost predicate Grouped(nodeName: string)
      reads this, nodeMap
    {
      && scenario.Some? && nodeName in nodeMap.nameMap && nodeMap.nameMap[nodeName].nodeType == NODE_EDGE_APP
      && IsLoc(scenario.value, nodeMap.nameMap[nodeName].place)
      && At(scenario.value, nodeMap.nameMap[nodeName].place).data.meSvcName != ""
    }

    /** A physical location is moved and the tree parsed again, or an edge application is moved and the
        index left behind: the invariant then holds only if the application was there already. */
    method MoveNode(nodeName: string, destName: string) returns (oldLoc: string, newLoc: string, err: Option<Error>)
      requires Valid() && Castable(nodeName, destName)
      modifies this, nodeMap
      ensures err.Some? ==> Valid() && scenario == old(scenario) && oldLoc == newLoc == ""
      ensures err == Some(InGroup) <==> old(Grouped(nodeName))
      ensures err.None? <==>
        nodeName in old(nodeMap.nameMap) && destName in old(nodeMap.nameMap) && !old(Grouped(nodeName))
      ensures err.None? ==>
        && old(scenario).Some? && newLoc == destName && oldLoc == old(nodeMap.nameMap)[nodeName].parentName
        && var root, loc, dst := old(scenario).value, old(nodeMap.nameMap)[nodeName].place, old(nodeMap.nameMap)[destName].place;
        && IsLoc(root, loc) && IsLoc(root, dst)
        && if old(nodeMap.nameMap)[nodeName].nodeType == NODE_EDGE_APP
           then |loc| == PROCESS_LEVEL && |dst| == PHYLOC_LEVEL && scenario == Some(ProcMoveOf(root, loc, dst))
           else |loc| == PHYLOC_LEVEL && |dst| == NETLOC_LEVEL && scenario == Some(MoveOf(root, loc, dst)) && Valid()
      ensures old(Unique()) && err.None? && old(nodeMap.nameMap)[nodeName].nodeType in {NODE_UE, NODE_EDGE_APP} ==> Unique()
      ensures old(Unique()) && err.None? && old(nodeMap.nameMap)[nodeName].nodeType == NODE_EDGE_APP ==>
        (Valid() <==> oldLoc == newLoc)
    {
      var moveNode := nodeMap.FindByName(nodeName);
      if moveNode.None? {
        return "", "", Some(NotFound);
      }
      FoundNode(nodeName);
      if moveNode.value.nodeType == NODE_EDGE_APP {
        oldLoc, newLoc, err := MoveProc(moveNode.value, destName);
      } else {
        oldLoc, newLoc, err := MovePL(moveNode.value, destName);
      }
    }

    /** A move of a physical location: unless it is there already, appended to the destination and
        cut out of the old location at the index searched for. */
    method MovePL(node: Node, destName: string) returns (oldLoc: string, newLoc: string, err: Option<Error>)
      requires Valid() && node.name in nodeMap.nameMap && nodeMap.nameMap[node.name] == node
      requires |node.place| == PHYLOC_LEVEL && FoundAtLevel(destName, NETLOC_LEVEL)
      modifies this
      ensures Valid()
      ensures err.Some? ==> err == Some(NotFound) && scenario == old(scenario) && oldLoc == newLoc == ""
      ensures err.None? <==> destName in old(nodeMap.nameMap)
      ensures err.None? ==>
        && old(scenario).Some? && newLoc == destName && oldLoc == node.parentName
        && var root, dst := old(scenario).value, old(nodeMap.nameMap)[destName].place;
        && IsLoc(root, node.place) && IsLoc(root, dst)
        && scenario == Some(MoveOf(root, node.place, dst))
      ensures old(Unique()) && err.None? && node.nodeType == NODE_UE ==> Unique()
    {
      var newNode := nodeMap.FindByName(destName);
      if newNode.None? {
        return "", "", Some(NotFound);
      }
      FoundNode(node.name);
      FoundNode(destName);
      var root := scenario.value;
      AboveIsLoc(root, node.place);
      var src, dst := node.place[..NETLOC_LEVEL], newNode.value.place;
      if src != dst {
        MovedShape(root, node.place, dst);
        if UniqueNames(root) {
          MoveConservesIffUeOrFirst(root, node.place, dst);
        }
        AtElsewhere(root, dst, Append(At(root, dst), At(root, node.place)), src);
        var pl := At(root, node.place);
        scenario := Some(AppendAt(root, dst, pl));
        var nl := At(scenario.value, src);
        var index := Search(nl.children, node.name, true);
        scenario := Some(RemoveAt(scenario.value, src, index));
        ParseNodes();
      }
      return At(root, src).name, destName, None;
    }

    /** A move of a process: unless it is there already, appended to the destination and cut out of the
        old location. Its node is told its new parent, and nothing else of the index changes. */
    method MoveProc(node: Node, destName: string) returns (oldLoc: string, newLoc: string, err: Option<Error>)
      requires Valid() && node.name in nodeMap.nameMap && nodeMap.nameMap[node.name] == node
      requires |node.place| == PROCESS_LEVEL && FoundAtLevel(destName, PHYLOC_LEVEL)
      modifies this`scenario, nodeMap
      ensures err.Some? ==> Valid() && scenario == old(scenario) && oldLoc == newLoc == ""
      ensures old(scenario).Some? && IsLoc(old(scenario).value, node.place)
      ensures err == Some(InGroup) <==> At(old(scenario).value, node.place).data.meSvcName != ""
      ensures err.None? <==> err != Some(InGroup) && destName in old(nodeMap.nameMap)
      ensures err.None? ==>
        && newLoc == destName && oldLoc == node.parentName
        && var root, dst := old(scenario).value, old(nodeMap.nameMap)[destName].place;
        && IsLoc(root, dst) && scenario == Some(ProcMoveOf(root, node.place, dst))
      ensures err.None? ==>
        nodeMap.nameMap == if node.place[..PHYLOC_LEVEL] == old(nodeMap.nameMap)[destName].place then old(nodeMap.nameMap)
                           else AddName(old(nodeMap.nameMap), node.(parentName := destName))
      ensures err.None? && old(Unique()) ==> Unique() && (Valid() <==> oldLoc == newLoc)
    {
      FoundNode(node.name);
      var root := scenario.value;
      if At(root, node.place).data.meSvcName != "" {
        return "", "", Some(InGroup);
      }
      var newNode := nodeMap.FindByName(destName);
      if newNode.None? {
        return "", "", Some(NotFound);
      }
      FoundNode(destName);
      AboveIsLoc(root, node.place);
      var src, dst := node.place[..PHYLOC_LEVEL], newNode.value.place;
      if src != dst {
        AtElsewhere(root, dst, Append(At(root, dst), At(root, node.place)), src);
        scenario := Some(AppendAt(root, dst, At(root, node.place)));
        var index := Search(At(scenario.value, src).children, node.name, false);
        scenario := Some(RemoveAt(scenario.value, src, index));
        nodeMap.AddNode(node.(parentName := destName));
        if UniqueNames(root) {
          ProcMoveConserves(root, node.place, dst);
          ProcMoveLeavesIndex(root, node.place, dst);
          if At(root, src).name == At(root, dst).name { PlaceOfName(root, src, dst); }
        }
      }
      return At(root, src).name, destName, None;
    }

    // ----- Listing names

    /** The names listed for some types: those indexed under one of them, or all for "" or "ANY". */
    method GetNodeNames(kinds: seq<string>) returns (names: seq<string>)
      requires Valid()
      ensures forall i, j :: 0 <= i < j < |names| ==> names[i] != names[j]
      ensures Unique() && scenario.Some? ==> forall name :: name in names <==> Bears(scenario.value, kinds, name)
    {
      var nm: NameIndex := map[];
      var i := 0;
      while i < |kinds|
        invariant i <= |kinds| && !AsksAll(kinds[..i])
        invariant forall k :: k in nm <==> InRows(nodeMap.typeMap, kinds[..i], k)
      {
        if kinds[i] == "" || kinds[i] == "ANY" {
          nm := nodeMap.nameMap;
          break;
        }
        MoreRows(nodeMap.typeMap, kinds, i);
        nm := nm + OfType(nodeMap.typeMap, kinds[i]);
        i := i + 1;
      }
      WholeOf(kinds);
      names := Listed(nm.Keys);
      if scenario.Some? && UniqueNames(scenario.value) {
        AllBear(scenario.value, kinds, nm.Keys);
      }
    }
  }
}
