/** The ends of flows, read off the scenario model: one for each process, with the names of what is above
    it. Unique names in the tree are what the routing asks of its ends. */
module ScenarioEnds {
  import opened Common
  import opened FlowRouting
  import opened NetCharAlgorithm
  import opened NetCharDelivery
  import opened ScenarioIndex
  import opened ScenarioModel
  import opened ScenarioTables
  import opened ScenarioTree

  const PROCESS_TYPES := ["CLOUD-APP", "EDGE-APP", "UE-APP"]

  // ----- One end

  /** The characteristics the code reads without a check are there. */
  ghost predicate Configured(root: Element) {
    && root.data.netChar.Some?
    && forall loc :: IsLoc(root, loc) && |loc| == PROCESS_LEVEL ==> At(root, loc).data.netChar.Some?
  }

  /** The name of the ancestor of a place at a level. */
  function AboveName(root: Element, loc: Loc, level: nat): string
    requires IsLoc(root, loc) && level <= |loc|
  {
    PrefixIsLoc(root, loc, level);
    At(root, loc[..level]).name
  }

  function PhyLocKind(root: Element, loc: Loc): string
    requires IsLoc(root, loc) && |loc| == PROCESS_LEVEL
  {
    PrefixIsLoc(root, loc, PHYLOC_LEVEL);
    At(root, loc[..PHYLOC_LEVEL]).kind
  }

  /** The end for the process at a place. Both rates are that of the uplink. */
  function EndAt(root: Element, loc: Loc): NetElem
    requires IsLoc(root, loc) && |loc| == PROCESS_LEVEL
    requires At(root, loc).data.netChar.Some? && root.data.netChar.Some?
  {
    var kind := PhyLocKind(root, loc);
    var rate := Defaulted(At(root, loc).data.netChar.value.throughputUl as real);
    NetElem(At(root, loc).name, kind, AboveName(root, loc, PHYLOC_LEVEL),
            if kind == "UE" || kind == "FOG" then AboveName(root, loc, NETLOC_LEVEL) else "",
            if kind != "DC" then AboveName(root, loc, ZONE_LEVEL) else "",
            AboveName(root, loc, DOMAIN_LEVEL), rate, rate, root.data.netChar.value.distribution)
  }

  // ----- The limit of a flow

  /** The rate a process is configured to send at. */
  function UplinkRate(root: Element, loc: Loc): real
    requires IsLoc(root, loc) && At(root, loc).data.netChar.Some?
  {
    Defaulted(At(root, loc).data.netChar.value.throughputUl as real)
  }

  /** The rate a process is configured to receive at, which the code does not read. */
  function DownlinkRate(root: Element, loc: Loc): real
    requires IsLoc(root, loc) && At(root, loc).data.netChar.Some?
  {
    Defaulted(At(root, loc).data.netChar.value.throughputDl as real)
  }

  /** The lower of what the source may send and the destination may receive. */
  function OwnLimit(root: Element, src: Loc, dst: Loc): real
    requires IsLoc(root, src) && At(root, src).data.netChar.Some?
    requires IsLoc(root, dst) && At(root, dst).data.netChar.Some?
  {
    if UplinkRate(root, src) < DownlinkRate(root, dst) then UplinkRate(root, src) else DownlinkRate(root, dst)
  }

  /** A flow is limited by what its source may send and its destination may receive if and only if the
      destination has one rate in both directions, or neither is below what the source may send. */
  lemma LimitRightExactly(root: Element, src: Loc, dst: Loc)
    requires Configured(root) && IsLoc(root, src) && IsLoc(root, dst) && |src| == |dst| == PROCESS_LEVEL
    ensures EndsLimit(EndAt(root, src), EndAt(root, dst)) == OwnLimit(root, src, dst)
      <==> UplinkRate(root, dst) == DownlinkRate(root, dst)
           || (UplinkRate(root, src) <= UplinkRate(root, dst) && UplinkRate(root, src) <= DownlinkRate(root, dst))
  {
  }

  const PLAIN := Data("", Some(NetChar(0, 0, "Normal", 0.0, 0, 0, 0)), NO_LEGACY, NO_LEGACY, NO_LEGACY, "")
  const NO_LEGACY := Legacy(0, 0, 0, 0.0)

  function Wrapped(e: Element): Element {
    Element("above " + e.name, "EDGE", PLAIN, [e])
  }

  /** A process of some rates. */
  function Process(name: string, downlink: int, uplink: int): Element {
    Element(name, "EDGE-APP", PLAIN.(netChar := Some(NetChar(0, 0, "Normal", 0.0, 0, downlink, uplink))), [])
  }

  lemma WrappedIs(e: Element, loc: Loc)
    requires IsLoc(e, loc)
    ensures IsLoc(Wrapped(e), [0] + loc) && At(Wrapped(e), [0] + loc) == At(e, loc)
  {
    assert ([0] + loc)[1..] == loc;
  }

  /** One location with a process that sends at 100 and one that sends at 10 and receives at 50. */
  function TwoProcesses(): Element {
    var node := Element("node", "EDGE", PLAIN, [Process("fast", 100, 100), Process("slow", 50, 10)]);
    Wrapped(Wrapped(Wrapped(Wrapped(node))))
  }

  lemma InTwoProcesses(i: nat)
    requires i < 2
    ensures IsLoc(TwoProcesses(), [0, 0, 0, 0, i])
    ensures At(TwoProcesses(), [0, 0, 0, 0, i]) == if i == 0 then Process("fast", 100, 100) else Process("slow", 50, 10)
  {
    var node := Element("node", "EDGE", PLAIN, [Process("fast", 100, 100), Process("slow", 50, 10)]);
    AtChild(node, [], i);
    assert [] + [i] == [i];
    WrappedIs(node, [i]);
    WrappedIs(Wrapped(node), [0] + [i]);
    WrappedIs(Wrapped(Wrapped(node)), [0] + ([0] + [i]));
    WrappedIs(Wrapped(Wrapped(Wrapped(node))), [0] + ([0] + ([0] + [i])));
    assert [0] + ([0] + ([0] + ([0] + [i]))) == [0, 0, 0, 0, i];
  }

  /** The flow to the slow process is limited to the 10 it sends at, not to the 50 it may receive. */
  lemma LimitedByUplink()
    ensures var root, fast, slow := TwoProcesses(), [0, 0, 0, 0, 0], [0, 0, 0, 0, 1];
      && IsLoc(root, fast) && IsLoc(root, slow)
      && At(root, fast).data.netChar.Some? && At(root, slow).data.netChar.Some? && root.data.netChar.Some?
      && EndsLimit(EndAt(root, fast), EndAt(root, slow)) == 10.0 && OwnLimit(root, fast, slow) == 50.0
  {
    InTwoProcesses(0);
    InTwoProcesses(1);
  }

  // ----- Unique names are enough for the routing

  lemma LevelsDiffer(root: Element, loc: Loc, j: nat, k: nat)
    requires UniqueNames(root) && IsLoc(root, loc) && j < k <= |loc|
    ensures AboveName(root, loc, j) != AboveName(root, loc, k)
  {
    PrefixIsLoc(root, loc, j);
    PrefixIsLoc(root, loc, k);
    if AboveName(root, loc, j) == AboveName(root, loc, k) {
      PlaceOfName(root, loc[..j], loc[..k]);
    }
  }

  /** An end's own name and the names above it, the scenario's included, are distinct. */
  lemma EndChainDistinct(root: Element, loc: Loc)
    requires UniqueNames(root) && IsLoc(root, loc) && |loc| == PROCESS_LEVEL
    requires At(root, loc).data.netChar.Some? && root.data.netChar.Some?
    ensures ChainDistinct(root.name, EndAt(root, loc))
  {
    assert loc[..0] == [] && loc[..PROCESS_LEVEL] == loc;
    forall j: nat, k: nat | j < k <= PROCESS_LEVEL ensures AboveName(root, loc, j) != AboveName(root, loc, k) {
      LevelsDiffer(root, loc, j, k);
    }
    var n0, n1, n2 := AboveName(root, loc, 0), AboveName(root, loc, 1), AboveName(root, loc, 2);
    var n3, n4, n5 := AboveName(root, loc, 3), AboveName(root, loc, 4), AboveName(root, loc, 5);
    assert n0 == root.name && n5 == At(root, loc).name;
  }

  /** The list has the end of each process of the tree, and no other, once. */
  ghost predicate EndsOf(root: Element, elems: seq<NetElem>, places: seq<Loc>)
    requires Configured(root)
  {
    && |elems| == |places|
    && (forall i :: 0 <= i < |places| ==> IsLoc(root, places[i]) && |places[i]| == PROCESS_LEVEL
                                          && elems[i] == EndAt(root, places[i]))
    && (forall i :: 0 <= i < |places| ==> At(root, places[i]).kind in {"CLOUD-APP", "EDGE-APP", "UE-APP"})
    && (forall i, j :: 0 <= i < j < |places| ==> places[i] != places[j])
    && (forall loc :: IsLoc(root, loc) && At(root, loc).kind in {"CLOUD-APP", "EDGE-APP", "UE-APP"} ==> loc in places)
  }

  /** Unique names without colons in a tree make its ends such that every flow is on its own segments, once. */
  lemma EndsWellNamed(root: Element, elems: seq<NetElem>, places: seq<Loc>)
    requires UniqueNames(root) && Configured(root) && EndsOf(root, elems, places)
    requires forall loc :: IsLoc(root, loc) ==> ':' !in At(root, loc).name
    ensures WellNamed(root.name, elems)
  {
    forall i | 0 <= i < |elems| ensures ':' !in elems[i].name && ChainDistinct(root.name, elems[i]) {
      EndChainDistinct(root, places[i]);
    }
    forall i, j | 0 <= i < j < |elems| ensures elems[i].name != elems[j].name {
      if elems[i].name == elems[j].name { PlaceOfName(root, places[i], places[j]); }
    }
  }

  /** From the tree to the segments: the flows of a scenario with unique names are found on exactly the
      segments of their paths, once each. */
  lemma TreeToSegments(root: Element, elems: seq<NetElem>, places: seq<Loc>, pairs: seq<(nat, nat)>)
    requires UniqueNames(root) && Configured(root) && EndsOf(root, elems, places)
    requires forall loc :: IsLoc(root, loc) ==> ':' !in At(root, loc).name
    requires Rows(elems, pairs, |elems|, 0)
    ensures OnceEach(RoutesOf(PathsOf(root.name), elems, pairs))
  {
    EndsWellNamed(root, elems, places);
    ScenarioIncidence(root.name, elems, pairs);
  }

  // ----- What the segments of a path are built from

  /** Every element has characteristics. */
  ghost predicate AllConfigured(root: Element) {
    Configured(root) && forall loc :: IsLoc(root, loc) ==> At(root, loc).data.netChar.Some?
  }

  function OwnChars(e: Element): ElementChars
    requires e.data.netChar.Some?
  {
    var nc := e.data.netChar.value;
    ElementChars(nc.latency as real, nc.latencyVariation as real, nc.packetLoss,
                 Defaulted(nc.throughputUl as real), Defaulted(nc.throughputDl as real))
  }

  /** The characteristics read for each name through the index. */
  function CharsFrom(root: Element, names: NameIndex): CharTable
    requires forall n :: n in names ==> IsLoc(root, names[n].place) && At(root, names[n].place).data.netChar.Some?
  {
    map n | n in names :: OwnChars(At(root, names[n].place))
  }

  ghost predicate IndexFor(root: Element, names: NameIndex) {
    && names == IndexNames(map[], NodesOf(root))
    && forall n :: n in names ==> IsLoc(root, names[n].place) && At(root, names[n].place).data.netChar.Some?
  }

  lemma IndexIsFor(root: Element)
    requires UniqueNames(root) && AllConfigured(root)
    ensures IndexFor(root, IndexNames(map[], NodesOf(root)))
  {
    IndexAgrees(root);
  }

  lemma ReadsOwn(root: Element, names: NameIndex, loc: Loc)
    requires UniqueNames(root) && AllConfigured(root) && IndexFor(root, names) && IsLoc(root, loc)
    ensures CharsOf(CharsFrom(root, names), At(root, loc).name) == OwnChars(At(root, loc))
  {
    IndexAgrees(root);
    assert names[At(root, loc).name] == NodeAt(root, loc);
  }

  /** The name is that of the element at a level on the way to a place. */
  ghost predicate OnTheWay(root: Element, loc: Loc, level: nat, name: string) {
    level <= |loc| && IsLoc(root, loc[..level]) && At(root, loc[..level]).name == name
  }

  lemma NameOnTheWay(root: Element, loc: Loc, name: string) returns (level: nat)
    requires Configured(root) && IsLoc(root, loc) && |loc| == PROCESS_LEVEL
    requires var e := EndAt(root, loc);
      name in [e.name, e.phyLoc, root.name] || (e.kind == "UE" && name == e.poa)
      || (e.kind != "DC" && name in [e.zone, e.domain])
    ensures OnTheWay(root, loc, level, name)
  {
    assert loc[..0] == [] && loc[..PROCESS_LEVEL] == loc;
    level :=
      if name == At(root, loc).name then PROCESS_LEVEL
      else if name == AboveName(root, loc, PHYLOC_LEVEL) then PHYLOC_LEVEL
      else if name == root.name then 0
      else if name == AboveName(root, loc, NETLOC_LEVEL) then NETLOC_LEVEL
      else if name == AboveName(root, loc, ZONE_LEVEL) then ZONE_LEVEL
      else DOMAIN_LEVEL;
    PrefixIsLoc(root, loc, level);
  }

  /** What is crossed between two processes is, on the side of the crossing, the process or an element above
      it. */
  lemma CrossedIsAbove(root: Element, src: Loc, dst: Loc, h: Hop) returns (level: nat)
    requires Configured(root) && IsLoc(root, src) && IsLoc(root, dst) && |src| == |dst| == PROCESS_LEVEL
    requires h in PathOf(root.name, EndAt(root, src), EndAt(root, dst))
    ensures OnTheWay(root, if h.dir == Uplink then src else dst, level, h.elem)
  {
    CrossedExactly(root.name, EndAt(root, src), EndAt(root, dst), h);
    level := NameOnTheWay(root, if h.dir == Uplink then src else dst, h.elem);
  }

  // ----- Which levels of the tree a flow crosses

  /** The process is on a physical location that has a point of access. */
  predicate Wireless(root: Element, loc: Loc)
    requires IsLoc(root, loc) && |loc| == PROCESS_LEVEL
  {
    PhyLocKind(root, loc) == "UE" || PhyLocKind(root, loc) == "FOG"
  }

  /** Two processes are on different physical locations, and one at least has a point of access that the other
      does not share. */
  predicate AccessDiffers(root: Element, src: Loc, dst: Loc)
    requires IsLoc(root, src) && IsLoc(root, dst) && |src| == |dst| == PROCESS_LEVEL
  {
    && src[..PHYLOC_LEVEL] != dst[..PHYLOC_LEVEL]
    && (Wireless(root, src) || Wireless(root, dst))
    && !(Wireless(root, src) && Wireless(root, dst) && src[..NETLOC_LEVEL] == dst[..NETLOC_LEVEL])
  }

  predicate InCloud(root: Element, loc: Loc)
    requires IsLoc(root, loc) && |loc| == PROCESS_LEVEL
  {
    PhyLocKind(root, loc) == "DC"
  }

  predicate ZoneDiffers(root: Element, src: Loc, dst: Loc)
    requires IsLoc(root, src) && IsLoc(root, dst) && |src| == |dst| == PROCESS_LEVEL
  {
    if InCloud(root, src) || InCloud(root, dst) then InCloud(root, src) != InCloud(root, dst)
    else src[..ZONE_LEVEL] != dst[..ZONE_LEVEL]
  }

  /** The levels that a flow crosses on a side: the process and its physical location, and then as far as the
      two ends part. */
  predicate CrossesLevel(root: Element, src: Loc, dst: Loc, side: Loc, level: nat)
    requires IsLoc(root, src) && IsLoc(root, dst) && |src| == |dst| == PROCESS_LEVEL
    requires side == src || side == dst
  {
    if level >= PHYLOC_LEVEL then true
    else if level == NETLOC_LEVEL then PhyLocKind(root, side) == "UE" && src[..PHYLOC_LEVEL] != dst[..PHYLOC_LEVEL]
    else if level == ZONE_LEVEL then !InCloud(root, side) && AccessDiffers(root, src, dst)
    else if level == DOMAIN_LEVEL then
      !InCloud(root, side) && AccessDiffers(root, src, dst) && ZoneDiffers(root, src, dst)
    else
      AccessDiffers(root, src, dst) && ZoneDiffers(root, src, dst) && src[..DOMAIN_LEVEL] != dst[..DOMAIN_LEVEL]
  }

  ghost predicate AllNamed(root: Element) {
    forall loc :: IsLoc(root, loc) ==> At(root, loc).name != ""
  }

  lemma NamesTellPlaces(root: Element, src: Loc, dst: Loc, level: nat)
    requires UniqueNames(root) && AllNamed(root) && IsLoc(root, src) && IsLoc(root, dst) && level <= |src| == |dst|
    ensures AboveName(root, src, level) == AboveName(root, dst, level) <==> src[..level] == dst[..level]
    ensures AboveName(root, src, level) != "" && AboveName(root, dst, level) != ""
  {
    PrefixIsLoc(root, src, level);
    PrefixIsLoc(root, dst, level);
    if AboveName(root, src, level) == AboveName(root, dst, level) { PlaceOfName(root, src[..level], dst[..level]); }
  }

  /** How the names of two ends compare is how their places do. */
  lemma EndsCompare(root: Element, src: Loc, dst: Loc)
    requires UniqueNames(root) && AllNamed(root) && Configured(root)
    requires IsLoc(root, src) && IsLoc(root, dst) && |src| == |dst| == PROCESS_LEVEL
    ensures var s, d := EndAt(root, src), EndAt(root, dst);
      && (s.phyLoc != d.phyLoc <==> src[..PHYLOC_LEVEL] != dst[..PHYLOC_LEVEL])
      && (s.phyLoc != d.phyLoc && s.poa != d.poa <==> AccessDiffers(root, src, dst))
      && (s.zone != d.zone <==> ZoneDiffers(root, src, dst))
      && (s.domain != d.domain <==> src[..DOMAIN_LEVEL] != dst[..DOMAIN_LEVEL])
  {
    NamesTellPlaces(root, src, dst, PHYLOC_LEVEL);
    NamesTellPlaces(root, src, dst, NETLOC_LEVEL);
    NamesTellPlaces(root, src, dst, ZONE_LEVEL);
    NamesTellPlaces(root, src, dst, DOMAIN_LEVEL);
  }

  /** The names above a process are all different. */
  lemma OneLevelNamed(root: Element, loc: Loc, level: nat)
    requires UniqueNames(root) && IsLoc(root, loc) && level <= |loc| == PROCESS_LEVEL
    ensures forall k: nat :: k <= PROCESS_LEVEL ==> (AboveName(root, loc, k) == AboveName(root, loc, level) <==> k == level)
  {
    forall k: nat | k <= PROCESS_LEVEL
      ensures AboveName(root, loc, k) == AboveName(root, loc, level) <==> k == level
    {
      if k < level { LevelsDiffer(root, loc, k, level); }
      if level < k { LevelsDiffer(root, loc, level, k); }
    }
  }

  /** In a scenario tree with unique names an element on the way to an end of a flow is crossed on that side
      exactly if its level is. */
  lemma LevelCrossedExactly(root: Element, src: Loc, dst: Loc, dir: Direction, level: nat)
    requires UniqueNames(root) && AllNamed(root) && Configured(root) && level <= PROCESS_LEVEL
    requires IsLoc(root, src) && IsLoc(root, dst) && |src| == |dst| == PROCESS_LEVEL
    ensures var side := if dir == Uplink then src else dst;
      Hop(AboveName(root, side, level), dir) in PathOf(root.name, EndAt(root, src), EndAt(root, dst))
      <==> CrossesLevel(root, src, dst, side, level)
  {
    var side := if dir == Uplink then src else dst;
    var h := Hop(AboveName(root, side, level), dir);
    assert side[..0] == [] && side[..PROCESS_LEVEL] == side;
    OneLevelNamed(root, side, level);
    EndsCompare(root, src, dst);
    CrossedExactly(root.name, EndAt(root, src), EndAt(root, dst), h);
    LevelOfEnd(root, side);
  }

  lemma LevelOfEnd(root: Element, loc: Loc)
    requires Configured(root) && IsLoc(root, loc) && |loc| == PROCESS_LEVEL
    ensures var e := EndAt(root, loc);
      && e.name == AboveName(root, loc, PROCESS_LEVEL) && e.phyLoc == AboveName(root, loc, PHYLOC_LEVEL)
      && (e.kind == "UE" ==> e.poa == AboveName(root, loc, NETLOC_LEVEL))
      && (e.kind != "DC" ==> e.zone == AboveName(root, loc, ZONE_LEVEL))
      && e.domain == AboveName(root, loc, DOMAIN_LEVEL) && root.name == AboveName(root, loc, 0)
      && e.kind == PhyLocKind(root, loc)
  {
    assert loc[..0] == [] && loc[..PROCESS_LEVEL] == loc;
  }

  /** A flow between two ends without a point of access, wherever in the tree they are, crosses nothing above
      their physical locations: no zone, no domain, and no link between domains. */
  lemma WiredCrossesNoZone(root: Element, src: Loc, dst: Loc, h: Hop)
    requires UniqueNames(root) && AllNamed(root) && Configured(root)
    requires IsLoc(root, src) && IsLoc(root, dst) && |src| == |dst| == PROCESS_LEVEL
    requires !Wireless(root, src) && !Wireless(root, dst)
    ensures var e := EndAt(root, if h.dir == Uplink then src else dst);
      h in PathOf(root.name, EndAt(root, src), EndAt(root, dst)) <==> h.elem == e.name || h.elem == e.phyLoc
  {
    EndsCompare(root, src, dst);
    CrossedExactly(root.name, EndAt(root, src), EndAt(root, dst), h);
  }

  /** The segment is built from the characteristics of the element. */
  ghost predicate BuiltFrom(tuning: SegmentShares.Tuning, s: SegmentAlgorithm.Segment, own: ElementChars) {
    var rate := if s.hop.dir == Uplink then own.throughputUl else own.throughputDl;
    && s.netChar.latency == own.latency && s.netChar.jitter == own.jitter && s.netChar.packetLoss == own.packetLoss
    && s.netChar.throughput == rate && s.settings == SegmentShares.SettingsFor(tuning, rate)
  }

  /** The element is crossed, and the segment is built from its characteristics. */
  ghost predicate BuiltFromTree(tuning: SegmentShares.Tuning, root: Element, s: SegmentAlgorithm.Segment, loc: Loc) {
    && IsLoc(root, loc) && At(root, loc).name == s.hop.elem && At(root, loc).data.netChar.Some?
    && BuiltFrom(tuning, s, OwnChars(At(root, loc)))
  }

  lemma BuiltFromOwn(tuning: SegmentShares.Tuning, chars: CharTable, s: SegmentAlgorithm.Segment, own: ElementChars)
    requires Built(s, BlueprintsOf(tuning, chars)) && CharsOf(chars, s.hop.elem) == own
    ensures BuiltFrom(tuning, s, own)
  {
    assert BlueprintsOf(tuning, chars)(s.hop) == BlueprintOf(tuning, chars, s.hop);
  }

  lemma SegmentFromTree(tuning: SegmentShares.Tuning, root: Element, names: NameIndex, src: Loc, dst: Loc,
                        s: SegmentAlgorithm.Segment) returns (level: nat)
    requires UniqueNames(root) && AllConfigured(root) && IndexFor(root, names)
    requires IsLoc(root, src) && IsLoc(root, dst) && |src| == |dst| == PROCESS_LEVEL
    requires Built(s, BlueprintsOf(tuning, CharsFrom(root, names)))
    requires s.hop in PathOf(root.name, EndAt(root, src), EndAt(root, dst))
    ensures level <= PROCESS_LEVEL && BuiltFromTree(tuning, root, s, (if s.hop.dir == Uplink then src else dst)[..level])
  {
    level := CrossedIsAbove(root, src, dst, s.hop);
    var side := if s.hop.dir == Uplink then src else dst;
    ReadsOwn(root, names, side[..level]);
    BuiltFromOwn(tuning, CharsFrom(root, names), s, OwnChars(At(root, side[..level])));
  }

  /** After routing a scenario tree each segment on the path of a flow is built from the characteristics
      of the element of the tree that is crossed: a process, or an element above it. */
  lemma SegmentsFromTree(a: Algorithm, root: Element, names: NameIndex, elems: seq<NetElem>, places: seq<Loc>,
                         pairs: seq<(nat, nat)>, k: nat, s: SegmentAlgorithm.Segment) returns (level: nat)
    requires UniqueNames(root) && AllConfigured(root) && IndexFor(root, names) && EndsOf(root, elems, places)
    requires InRange(elems, pairs) && k < |pairs|
    requires a.Routed(RoutesOf(PathsOf(root.name), elems, pairs), BlueprintsOf(a.tuning, CharsFrom(root, names)))
    requires s in a.segmentSet && s.hop in PathOf(root.name, elems[pairs[k].0], elems[pairs[k].1])
    ensures var side := places[if s.hop.dir == Uplink then pairs[k].0 else pairs[k].1];
      level <= |side| && BuiltFromTree(a.tuning, root, s, side[..level])
  {
    level := SegmentFromTree(a.tuning, root, names, places[pairs[k].0], places[pairs[k].1], s);
  }

  /** What an end takes from the tree beside names. */
  lemma EndMeans(root: Element, loc: Loc)
    requires IsLoc(root, loc) && |loc| == PROCESS_LEVEL
    requires At(root, loc).data.netChar.Some? && root.data.netChar.Some?
    ensures var e, up := EndAt(root, loc), At(root, loc).data.netChar.value.throughputUl;
      && e.name == At(root, loc).name && e.distribution == root.data.netChar.value.distribution
      && e.throughputUl == e.throughputDl == if up == 0 then 1000.0 else up as real
  {
  }

  /** After routing a scenario tree the flow between two processes bears both names, has the distribution of the
      deployment, and is limited by the lower of the two uplink rates, where zero reads as 1000. */
  lemma FlowsFromTree(a: Algorithm, root: Element, elems: seq<NetElem>, places: seq<Loc>, pairs: seq<(nat, nat)>,
                      was: map<string, Standing>, k: nat)
    requires UniqueNames(root) && Configured(root) && EndsOf(root, elems, places)
    requires forall loc :: IsLoc(root, loc) ==> ':' !in At(root, loc).name
    requires Rows(elems, pairs, |elems|, 0) && k < |pairs|
    requires a.Populated(was, RoutesOf(PathsOf(root.name), elems, pairs))
    ensures var src, dst := At(root, places[pairs[k].0]), At(root, places[pairs[k].1]);
      var name := src.name + ":" + dst.name;
      && src.data.netChar.Some? && dst.data.netChar.Some? && name in a.flowMap
      && a.flowMap[name].distribution == root.data.netChar.value.distribution
      && var up, down := src.data.netChar.value.throughputUl, dst.data.netChar.value.throughputUl;
      && var sends, receives := if up == 0 then 1000.0 else up as real, if down == 0 then 1000.0 else down as real;
      a.flowMap[name].demand.configured == if sends < receives then sends else receives
  {
    EndsWellNamed(root, elems, places);
    FlowsStand(a, root.name, elems, pairs, was, k);
    EndMeans(root, places[pairs[k].0]);
    EndMeans(root, places[pairs[k].1]);
  }

  // ----- From an update to the segments

  /** Characteristics written leave the index as it is, and are what is read for the element. */
  lemma WrittenIsRead(root: Element, names: NameIndex, loc: Loc, nc: ScenarioTree.NetChar)
    requires Leveled(root, DEPLOYMENT_LEVEL) && UniqueNames(root) && AllConfigured(root) && IndexFor(root, names)
    requires IsLoc(root, loc)
    ensures var r := WithNetChar(root, loc, Some(nc));
      && UniqueNames(r) && AllConfigured(r) && IndexFor(r, names)
      && IsLoc(r, loc) && At(r, loc).name == At(root, loc).name && At(r, loc).data.netChar == Some(nc)
      && forall n :: n != At(root, loc).name ==> CharsOf(CharsFrom(r, names), n) == CharsOf(CharsFrom(root, names), n)
  {
    var r := WithNetChar(root, loc, Some(nc));
    NetCharWritten(root, loc, Some(nc));
    UpdatedElement(root, loc, Some(nc));
    forall other | IsLoc(r, other) ensures At(r, other).data.netChar.Some? {
      assert IsLoc(root, other);
    }
    assert IsLoc(root, []);
    IndexIsFor(r);
    IndexAgrees(root);
    forall n | n in names && n != At(root, loc).name
      ensures At(r, names[n].place).data == At(root, names[n].place).data
    {
      assert names[n].place != loc;
    }
  }

  /** A segment made after an update is built from the characteristics written if its element is the one updated,
      and else as before; a rate of zero is read as 1000. */
  lemma UpdateReachesSegments(tuning: SegmentShares.Tuning, root: Element, names: NameIndex, loc: Loc,
                              nc: ScenarioTree.NetChar, s: SegmentAlgorithm.Segment)
    requires Leveled(root, DEPLOYMENT_LEVEL) && UniqueNames(root) && AllConfigured(root) && IndexFor(root, names)
    requires IsLoc(root, loc) && IndexFor(WithNetChar(root, loc, Some(nc)), names)
    requires Built(s, BlueprintsOf(tuning, CharsFrom(WithNetChar(root, loc, Some(nc)), names)))
    ensures s.hop.elem == At(root, loc).name ==>
      var configured := if s.hop.dir == Uplink then nc.throughputUl else nc.throughputDl;
      var rate := if configured == 0 then 1000.0 else configured as real;
      && s.netChar.latency == nc.latency as real && s.netChar.jitter == nc.latencyVariation as real
      && s.netChar.packetLoss == nc.packetLoss && s.netChar.throughput == rate
      && s.settings == SegmentShares.SettingsFor(tuning, rate)
    ensures s.hop.elem != At(root, loc).name ==> Built(s, BlueprintsOf(tuning, CharsFrom(root, names)))
  {
    var r := WithNetChar(root, loc, Some(nc));
    WrittenIsRead(root, names, loc, nc);
    if s.hop.elem == At(root, loc).name {
      ReadsOwn(r, names, loc);
      BuiltFromOwn(tuning, CharsFrom(r, names), s, OwnChars(At(r, loc)));
    } else {
      SameBlueprint(tuning, CharsFrom(r, names), CharsFrom(root, names), s.hop);
    }
  }

  lemma SameBlueprint(tuning: SegmentShares.Tuning, a: CharTable, b: CharTable, h: Hop)
    requires CharsOf(a, h.elem) == CharsOf(b, h.elem)
    ensures BlueprintsOf(tuning, a)(h) == BlueprintsOf(tuning, b)(h)
  {
  }

  // ----- Reading them

  /** The end a node stands for, read through the index: the names from its context, the type of its
      physical location from that node. */
  function ReadEnd(root: Element, names: NameIndex, node: Node): NetElem
    requires IsLoc(root, node.place) && At(root, node.place).data.netChar.Some? && root.data.netChar.Some?
    requires |node.context| > PHYLOC_LEVEL
  {
    var phyLoc := node.context[PHYLOC_LEVEL];
    var kind := if phyLoc in names then names[phyLoc].nodeType else "";
    var rate := Defaulted(At(root, node.place).data.netChar.value.throughputUl as real);
    NetElem(node.name, kind, phyLoc,
            if kind == "UE" || kind == "FOG" then node.context[NETLOC_LEVEL] else "",
            if kind != "DC" then node.context[ZONE_LEVEL] else "",
            node.context[DOMAIN_LEVEL], rate, rate, root.data.netChar.value.distribution)
  }

  lemma ReadsEndAt(root: Element, names: NameIndex, loc: Loc)
    requires UniqueNames(root) && names == IndexNames(map[], NodesOf(root))
    requires IsLoc(root, loc) && |loc| == PROCESS_LEVEL
    requires At(root, loc).data.netChar.Some? && root.data.netChar.Some?
    ensures ReadEnd(root, names, NodeAt(root, loc)) == EndAt(root, loc)
  {
    IndexAgrees(root);
    PrefixIsLoc(root, loc, PHYLOC_LEVEL);
    PrefixIsLoc(root, loc, NETLOC_LEVEL);
    PrefixIsLoc(root, loc, ZONE_LEVEL);
    PrefixIsLoc(root, loc, DOMAIN_LEVEL);
  }

  /** The end of one name; none if the name is not that of a process. */
  method FindEnd(m: Model, name: string) returns (end: Option<NetElem>)
    requires m.Valid() && m.Unique() && m.scenario.Some? && Configured(m.scenario.value)
    ensures end.Some? <==> IsProcess(m.nodeMap.nameMap, name)
    ensures end.Some? ==> ReadFor(m.scenario.value, m.nodeMap.nameMap, name, end.value, m.nodeMap.nameMap[name].place)
  {
    ghost var root := m.scenario.value;
    IndexAgrees(root);
    if name !in m.nodeMap.nameMap {
      return None;
    }
    var node := m.nodeMap.nameMap[name];
    if |node.place| != PROCESS_LEVEL {
      return None;
    }
    ReadsEndAt(root, m.nodeMap.nameMap, node.place);
    end := Some(ReadEnd(m.scenario.value, m.nodeMap.nameMap, node));
  }

  /** The ends of some names, in order; none if one of them is not that of a process. */
  method FindEnds(m: Model, procNames: seq<string>) returns (elems: Option<seq<NetElem>>, ghost places: seq<Loc>)
    requires m.Valid() && m.Unique() && m.scenario.Some? && Configured(m.scenario.value)
    ensures elems.Some? ==> AllFor(m.scenario.value, m.nodeMap.nameMap, procNames, elems.value, places)
    ensures elems.None? ==> exists name :: name in procNames && !IsProcess(m.nodeMap.nameMap, name)
  {
    var list: seq<NetElem> := [];
    places := [];
    for i := 0 to |procNames|
      invariant AllFor(m.scenario.value, m.nodeMap.nameMap, procNames[..i], list, places)
    {
      var end := FindEnd(m, procNames[i]);
      if end.None? {
        assert procNames[i] in procNames;
        return None, [];
      }
      OneMoreFor(m.scenario.value, m.nodeMap.nameMap, procNames, i, list, places, end.value);
      list := list + [end.value];
      places := places + [m.nodeMap.nameMap[procNames[i]].place];
    }
    WholeOf(procNames);
    elems := Some(list);
  }

  /** The ends of all processes, in some order; none if something of a process type is no process. */
  method ReadEnds(m: Model) returns (elems: Option<seq<NetElem>>, ghost places: seq<Loc>)
    requires m.Valid() && m.Unique() && m.scenario.Some? && Configured(m.scenario.value)
    ensures elems.Some? ==> EndsOf(m.scenario.value, elems.value, places)
    ensures elems.Some? <==> OnlyProcesses(m.scenario.value)
  {
    var procNames := m.GetNodeNames(PROCESS_TYPES);
    elems, places := FindEnds(m, procNames);
    if elems.Some? {
      AllRead(m.scenario.value, m.nodeMap.nameMap, procNames, elems.value, places);
    } else {
      var name :| name in procNames && !IsProcess(m.nodeMap.nameMap, name);
      NoProcess(m.scenario.value, m.nodeMap.nameMap, name);
    }
  }

  /** What is of a process type is a process. */
  ghost predicate OnlyProcesses(root: Element) {
    forall loc :: IsLoc(root, loc) && At(root, loc).kind in {"CLOUD-APP", "EDGE-APP", "UE-APP"} ==> |loc| == PROCESS_LEVEL
  }

  predicate IsProcess(names: NameIndex, name: string) {
    name in names && |names[name].place| == PROCESS_LEVEL
  }

  /** The ends and places are those of the names. */
  ghost predicate AllFor(root: Element, names: NameIndex, procNames: seq<string>, list: seq<NetElem>, places: seq<Loc>)
    requires Configured(root)
  {
    && |list| == |places| == |procNames|
    && forall k :: 0 <= k < |procNames| ==> ReadFor(root, names, procNames[k], list[k], places[k])
  }

  lemma OneMoreFor(root: Element, names: NameIndex, procNames: seq<string>, i: nat, list: seq<NetElem>,
                   places: seq<Loc>, end: NetElem)
    requires Configured(root) && i < |procNames| && AllFor(root, names, procNames[..i], list, places)
    requires procNames[i] in names && ReadFor(root, names, procNames[i], end, names[procNames[i]].place)
    ensures AllFor(root, names, procNames[..i + 1], list + [end], places + [names[procNames[i]].place])
  {
    var list', places' := list + [end], places + [names[procNames[i]].place];
    forall k | 0 <= k < i + 1 ensures ReadFor(root, names, procNames[..i + 1][k], list'[k], places'[k]) {
      PrefixAt(procNames, i, k);
      if k < i { assert ReadFor(root, names, procNames[..i][k], list[k], places[k]); }
    }
  }

  lemma PrefixAt(s: seq<string>, i: nat, k: nat)
    requires k <= i < |s|
    ensures s[..i + 1][k] == s[k] && (k < i ==> s[..i][k] == s[k])
  {
  }

  /** An end and a place are those of a name. */
  ghost predicate ReadFor(root: Element, names: NameIndex, name: string, end: NetElem, loc: Loc)
    requires Configured(root)
  {
    name in names && names[name].place == loc && IsLoc(root, loc) && |loc| == PROCESS_LEVEL && end == EndAt(root, loc)
  }

  lemma NoProcess(root: Element, names: NameIndex, name: string)
    requires UniqueNames(root) && names == IndexNames(map[], NodesOf(root)) && Bears(root, PROCESS_TYPES, name)
    requires !IsProcess(names, name)
    ensures !OnlyProcesses(root)
  {
    IndexAgrees(root);
    var loc := PlaceBearing(root, name);
    assert names[name] == NodeAt(root, loc);
  }

  lemma AllRead(root: Element, names: NameIndex, procNames: seq<string>, list: seq<NetElem>, places: seq<Loc>)
    requires UniqueNames(root) && Configured(root) && names == IndexNames(map[], NodesOf(root))
    requires forall i, j :: 0 <= i < j < |procNames| ==> procNames[i] != procNames[j]
    requires forall name :: name in procNames <==> Bears(root, PROCESS_TYPES, name)
    requires AllFor(root, names, procNames, list, places)
    ensures EndsOf(root, list, places) && OnlyProcesses(root)
  {
    forall i | 0 <= i < |places| ensures IsLoc(root, places[i]) && At(root, places[i]).kind in PROCESS_TYPES {
      assert procNames[i] in procNames && ReadFor(root, names, procNames[i], list[i], places[i]);
      KindOfRead(root, names, procNames[i], list[i], places[i]);
    }
    forall i, j | 0 <= i < j < |places| ensures places[i] != places[j] {
      assert ReadFor(root, names, procNames[i], list[i], places[i]) && ReadFor(root, names, procNames[j], list[j], places[j]);
      NameOfRead(root, names, procNames[i], list[i], places[i]);
      NameOfRead(root, names, procNames[j], list[j], places[j]);
    }
    forall loc | IsLoc(root, loc) && At(root, loc).kind in PROCESS_TYPES ensures loc in places && |loc| == PROCESS_LEVEL {
      var name := At(root, loc).name;
      assert HasName(root, loc, name) && Bears(root, PROCESS_TYPES, name);
      var k :| 0 <= k < |procNames| && procNames[k] == name;
      assert ReadFor(root, names, name, list[k], places[k]);
      PlaceOfRead(root, names, loc, list[k], places[k]);
    }
  }

  lemma KindOfRead(root: Element, names: NameIndex, name: string, end: NetElem, loc: Loc)
    requires UniqueNames(root) && Configured(root) && names == IndexNames(map[], NodesOf(root))
    requires Bears(root, PROCESS_TYPES, name) && ReadFor(root, names, name, end, loc)
    ensures At(root, loc).kind in PROCESS_TYPES
  {
    var other := PlaceBearing(root, name);
    PlaceOfRead(root, names, other, end, loc);
  }

  lemma PlaceBearing(root: Element, name: string) returns (loc: Loc)
    requires Bears(root, PROCESS_TYPES, name)
    ensures HasName(root, loc, name) && At(root, loc).kind in PROCESS_TYPES
  {
    loc :| HasName(root, loc, name) && At(root, loc).kind in PROCESS_TYPES;
  }

  lemma NameOfRead(root: Element, names: NameIndex, name: string, end: NetElem, loc: Loc)
    requires UniqueNames(root) && Configured(root) && names == IndexNames(map[], NodesOf(root))
    requires ReadFor(root, names, name, end, loc)
    ensures At(root, loc).name == name
  {
    IndexAgrees(root);
  }

  lemma PlaceOfRead(root: Element, names: NameIndex, loc: Loc, end: NetElem, place: Loc)
    requires UniqueNames(root) && Configured(root) && names == IndexNames(map[], NodesOf(root))
    requires IsLoc(root, loc) && ReadFor(root, names, At(root, loc).name, end, place)
    ensures place == loc
  {
    IndexAgrees(root);
    assert names[At(root, loc).name] == NodeAt(root, loc);
  }
}
