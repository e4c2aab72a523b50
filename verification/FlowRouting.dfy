/** Which segments a flow crosses, and which flows a segment carries. */
module FlowRouting {

  datatype Direction = Uplink | Downlink

  function DirectionName(d: Direction): string {
    match d
    case Uplink => "uplink"
    case Downlink => "downlink"
  }

  function Opposite(d: Direction): Direction {
    match d
    case Uplink => Downlink
    case Downlink => Uplink
  }

  /** One crossing of a network element, in one direction. */
  datatype Hop = Hop(elem: string, dir: Direction)

  function SegmentName(h: Hop): string {
    h.elem + DirectionName(h.dir)
  }

  function FlowName(src: string, dst: string): string {
    src + ":" + dst
  }

  /** One end of a flow: a process with the names of the elements above it. */
  datatype NetElem = NetElem(
    name: string, kind: string, phyLoc: string, poa: string, zone: string, domain: string,
    throughputUl: real, throughputDl: real, distribution: string)

  /** The uplink crossing of the source side and the downlink crossing of the destination side, where present. */
  function Cross(up: bool, src: string, down: bool, dst: string): seq<Hop> {
    (if up then [Hop(src, Uplink)] else []) + (if down then [Hop(dst, Downlink)] else [])
  }

  function AppHops(s: NetElem, d: NetElem): seq<Hop> {
    Cross(true, s.name, true, d.name) + Cross(true, s.phyLoc, true, d.phyLoc)
  }

  function AccessHops(s: NetElem, d: NetElem): seq<Hop> {
    Cross(s.kind == "UE", s.poa, d.kind == "UE", d.poa)
  }

  function ZoneHops(s: NetElem, d: NetElem): seq<Hop> {
    Cross(s.kind != "DC", s.zone, d.kind != "DC", d.zone)
  }

  function DomainHops(s: NetElem, d: NetElem): seq<Hop> {
    Cross(s.kind != "DC", s.domain, d.kind != "DC", d.domain)
  }

  function AfterDomains(scenario: string, s: NetElem, d: NetElem): seq<Hop> {
    if s.domain == d.domain then [] else Cross(true, scenario, true, scenario)
  }

  function AfterZones(scenario: string, s: NetElem, d: NetElem): seq<Hop> {
    if s.zone == d.zone then [] else DomainHops(s, d) + AfterDomains(scenario, s, d)
  }

  function AfterAccess(scenario: string, s: NetElem, d: NetElem): seq<Hop> {
    if s.poa == d.poa then [] else ZoneHops(s, d) + AfterZones(scenario, s, d)
  }

  function AfterApps(scenario: string, s: NetElem, d: NetElem): seq<Hop> {
    if s.phyLoc == d.phyLoc then [] else AccessHops(s, d) + AfterAccess(scenario, s, d)
  }

  /** The crossings of a flow, in the order they are appended to its path. */
  function PathOf(scenario: string, s: NetElem, d: NetElem): seq<Hop> {
    AppHops(s, d) + AfterApps(scenario, s, d)
  }

  // ----- Names

  lemma DirectionMark(h: Hop)
    ensures |SegmentName(h)| >= 6
    ensures SegmentName(h)[|SegmentName(h)| - 6] == if h.dir == Uplink then 'u' else 'w'
    ensures h.elem == SegmentName(h)[..|SegmentName(h)| - |DirectionName(h.dir)|]
  {
  }

  /** Segment names are injective in (element, direction). */
  lemma SegmentNameInjective(a: Hop, b: Hop)
    requires SegmentName(a) == SegmentName(b)
    ensures a == b
  {
    DirectionMark(a);
    DirectionMark(b);
  }

  lemma FirstColon(a: string, b: string)
    requires ':' !in a
    ensures var n := FlowName(a, b);
      |n| > |a| && n[|a|] == ':' && (forall k :: 0 <= k < |a| ==> n[k] != ':') && a == n[..|a|] && b == n[|a| + 1..]
  {
  }

  /** Without a colon in the source names, a flow name tells both ends. */
  lemma FlowNameInjective(a: string, b: string, c: string, d: string)
    requires ':' !in a && ':' !in c && FlowName(a, b) == FlowName(c, d)
    ensures a == c && b == d
  {
    FirstColon(a, b);
    FirstColon(c, d);
  }

  /** The first pair of ends splits the name before the second does. */
  ghost predicate SplitsBefore(a: string, b: string, c: string, d: string) {
    exists x: string :: c == a + ":" + x && b == x + ":" + d
  }

  lemma SplitBefore(a: string, b: string, c: string, d: string)
    requires FlowName(a, b) == FlowName(c, d) && |a| < |c|
    ensures SplitsBefore(a, b, c, d)
  {
    var n, x := FlowName(a, b), c[|a| + 1..];
    assert a == n[..|a|] && b == n[|a| + 1..] && c == n[..|c|] && d == n[|c| + 1..];
    assert n[|a|] == ':' && n[|c|] == ':';
    assert c == a + ":" + x;
    assert b == x + ":" + d;
  }

  lemma SplitMeets(a: string, b: string, c: string, d: string, x: string)
    requires c == a + ":" + x && b == x + ":" + d
    ensures FlowName(a, b) == FlowName(c, d)
  {
    assert a + ":" + (x + ":" + d) == (a + ":" + x) + ":" + d;
  }

  /** Two pairs of ends share a flow name exactly if they are the same, or the name of one's source goes on
      with a colon after that of the other's, and makes up for it in the destination. */
  lemma FlowNamesMeetExactly(a: string, b: string, c: string, d: string)
    ensures FlowName(a, b) == FlowName(c, d)
      <==> (a == c && b == d) || SplitsBefore(a, b, c, d) || SplitsBefore(c, d, a, b)
  {
    if FlowName(a, b) == FlowName(c, d) {
      if |a| < |c| {
        SplitBefore(a, b, c, d);
      } else if |c| < |a| {
        SplitBefore(c, d, a, b);
      } else {
        var n := FlowName(a, b);
        assert a == n[..|a|] == c && b == n[|a| + 1..] == d;
      }
    }
    if x :| c == a + ":" + x && b == x + ":" + d { SplitMeets(a, b, c, d, x); }
    if x :| a == c + ":" + x && d == x + ":" + b { SplitMeets(c, d, a, b, x); }
  }

  /** With a colon it may not. */
  lemma ColonNamesCollide()
    ensures FlowName("a", "b:c") == FlowName("a:b", "c")
  {
    assert FlowName("a", "b:c") == "a:b:c";
  }

  // ----- Path symmetry

  function Reversed(p: seq<Hop>): (r: seq<Hop>)
    ensures |r| == |p| && forall i :: 0 <= i < |p| ==> r[i] == Hop(p[i].elem, Opposite(p[i].dir))
  {
    seq(|p|, i requires 0 <= i < |p| => Hop(p[i].elem, Opposite(p[i].dir)))
  }

  /** Two paths cross the same elements, each the other way round. */
  ghost predicate Mirror(p: seq<Hop>, q: seq<Hop>) {
    multiset(q) == multiset(Reversed(p))
  }

  lemma MirrorAppend(p: seq<Hop>, q: seq<Hop>, p': seq<Hop>, q': seq<Hop>)
    requires Mirror(p, q) && Mirror(p', q')
    ensures Mirror(p + p', q + q')
  {
    assert Reversed(p + p') == Reversed(p) + Reversed(p');
  }

  lemma CrossMirror(up: bool, src: string, down: bool, dst: string)
    ensures Mirror(Cross(up, src, down, dst), Cross(down, dst, up, src))
  {
    assert Reversed(Cross(up, src, down, dst))
        == (if up then [Hop(src, Downlink)] else []) + (if down then [Hop(dst, Uplink)] else []);
  }

  lemma AfterDomainsMirror(scenario: string, s: NetElem, d: NetElem)
    ensures Mirror(AfterDomains(scenario, s, d), AfterDomains(scenario, d, s))
  {
    CrossMirror(true, scenario, true, scenario);
  }

  lemma AfterZonesMirror(scenario: string, s: NetElem, d: NetElem)
    ensures Mirror(AfterZones(scenario, s, d), AfterZones(scenario, d, s))
  {
    if s.zone != d.zone {
      AfterDomainsMirror(scenario, s, d);
      CrossMirror(s.kind != "DC", s.domain, d.kind != "DC", d.domain);
      MirrorAppend(DomainHops(s, d), DomainHops(d, s), AfterDomains(scenario, s, d), AfterDomains(scenario, d, s));
    }
  }

  lemma AfterAccessMirror(scenario: string, s: NetElem, d: NetElem)
    ensures Mirror(AfterAccess(scenario, s, d), AfterAccess(scenario, d, s))
  {
    if s.poa != d.poa {
      AfterZonesMirror(scenario, s, d);
      CrossMirror(s.kind != "DC", s.zone, d.kind != "DC", d.zone);
      MirrorAppend(ZoneHops(s, d), ZoneHops(d, s), AfterZones(scenario, s, d), AfterZones(scenario, d, s));
    }
  }

  lemma AfterAppsMirror(scenario: string, s: NetElem, d: NetElem)
    ensures Mirror(AfterApps(scenario, s, d), AfterApps(scenario, d, s))
  {
    if s.phyLoc != d.phyLoc {
      AfterAccessMirror(scenario, s, d);
      CrossMirror(s.kind == "UE", s.poa, d.kind == "UE", d.poa);
      MirrorAppend(AccessHops(s, d), AccessHops(d, s), AfterAccess(scenario, s, d), AfterAccess(scenario, d, s));
    }
  }

  /** For every pair of ends and every early exit, the way back crosses the same elements with
      uplink and downlink exchanged. */
  lemma PathSymmetry(scenario: string, s: NetElem, d: NetElem)
    ensures Mirror(PathOf(scenario, s, d), PathOf(scenario, d, s))
  {
    CrossMirror(true, s.name, true, d.name);
    CrossMirror(true, s.phyLoc, true, d.phyLoc);
    MirrorAppend(Cross(true, s.name, true, d.name), Cross(true, d.name, true, s.name),
                 Cross(true, s.phyLoc, true, d.phyLoc), Cross(true, d.phyLoc, true, s.phyLoc));
    AfterAppsMirror(scenario, s, d);
    MirrorAppend(AppHops(s, d), AppHops(d, s), AfterApps(scenario, s, d), AfterApps(scenario, d, s));
  }

  /** The sum, over a path, of a figure that each element has in both directions. */
  function PathSum(figure: string -> real, p: seq<Hop>): real {
    if p == [] then 0.0 else PathSum(figure, p[..|p| - 1]) + figure(p[|p| - 1].elem)
  }

  lemma {:induction false} PathSumRemove(figure: string -> real, p: seq<Hop>, i: nat)
    requires i < |p|
    ensures PathSum(figure, p) == PathSum(figure, p[..i] + p[i + 1..]) + figure(p[i].elem)
    decreases |p|
  {
    if i < |p| - 1 {
      var q := p[..|p| - 1];
      PathSumRemove(figure, q, i);
      assert (p[..i] + p[i + 1..])[..|p| - 2] == q[..i] + q[i + 1..];
    } else {
      assert p[..i] + p[i + 1..] == p[..|p| - 1];
    }
  }

  lemma {:induction false} PathSumReversed(figure: string -> real, p: seq<Hop>)
    ensures PathSum(figure, Reversed(p)) == PathSum(figure, p)
  {
    if p != [] {
      PathSumReversed(figure, p[..|p| - 1]);
      assert Reversed(p)[..|p| - 1] == Reversed(p[..|p| - 1]);
    }
  }

  lemma Without(p: seq<Hop>, i: nat)
    requires i < |p|
    ensures multiset(p[..i] + p[i + 1..]) == multiset(p) - multiset{p[i]}
  {
    assert p == p[..i] + [p[i]] + p[i + 1..];
  }

  lemma {:induction false} PathSumPermuted(figure: string -> real, p: seq<Hop>, q: seq<Hop>)
    requires multiset(p) == multiset(q)
    ensures PathSum(figure, p) == PathSum(figure, q)
    decreases |p|
  {
    if p == [] {
      assert |q| == |multiset(q)| == 0;
    } else {
      var n := |p| - 1;
      var i := MatchLast(p, q);
      PathSumRemove(figure, q, i);
      PathSumPermuted(figure, p[..n], q[..i] + q[i + 1..]);
    }
  }

  /** The last of a list, found in another with the same members; without it they still have the same. */
  lemma MatchLast(p: seq<Hop>, q: seq<Hop>) returns (i: nat)
    requires p != [] && multiset(p) == multiset(q)
    ensures i < |q| && q[i] == p[|p| - 1]
    ensures multiset(p[..|p| - 1]) == multiset(q[..i] + q[i + 1..])
  {
    var n := |p| - 1;
    assert p[n] in multiset(q);
    i :| 0 <= i < |q| && q[i] == p[n];
    Without(p, n);
    Without(q, i);
    assert p[..n] + p[n + 1..] == p[..n];
  }

  /** A figure that each element has in both directions, such as latency or jitter, adds up to
      the same total on the way and on the way back. */
  lemma RoundTripSumsEqual(figure: string -> real, scenario: string, s: NetElem, d: NetElem)
    ensures PathSum(figure, PathOf(scenario, s, d)) == PathSum(figure, PathOf(scenario, d, s))
  {
    var p, q := PathOf(scenario, s, d), PathOf(scenario, d, s);
    PathSymmetry(scenario, s, d);
    PathSumReversed(figure, p);
    PathSumPermuted(figure, Reversed(p), q);
  }

  // ----- Which flows a segment carries

  /** Crossing to the names of the flows on its segment, in the order they were added. */
  type Table = map<Hop, seq<string>>

  function Carried(t: Table, h: Hop): seq<string> {
    if h in t then t[h] else []
  }

  function AddFlow(t: Table, h: Hop, flow: string): Table {
    t[h := Carried(t, h) + [flow]]
  }

  function AddPath(t: Table, hops: seq<Hop>, flow: string): Table {
    if hops == [] then t
    else AddFlow(AddPath(t, hops[..|hops| - 1], flow), hops[|hops| - 1], flow)
  }

  lemma AddPathStep(t: Table, hops: seq<Hop>, i: nat, flow: string)
    requires i < |hops|
    ensures AddPath(t, hops[..i + 1], flow) == AddFlow(AddPath(t, hops[..i], flow), hops[i], flow)
  {
    assert hops[..i + 1][..i] == hops[..i];
  }

  /** A routed flow: its name, the crossings of its path, its limit and its distribution. */
  datatype Route = Route(flow: string, hops: seq<Hop>, limit: real, distribution: string)

  function RouteAll(routes: seq<Route>): Table {
    if routes == [] then map[]
    else
      var n := |routes| - 1;
      AddPath(RouteAll(routes[..n]), routes[n].hops, routes[n].flow)
  }

  /** How often a flow is listed on a segment. */
  function Listed(t: Table, h: Hop, flow: string): nat {
    multiset(Carried(t, h))[flow]
  }

  lemma AddFlowListed(t: Table, g: Hop, flow: string, h: Hop, other: string)
    ensures Listed(AddFlow(t, g, flow), h, other) == Listed(t, h, other) + if g == h && flow == other then 1 else 0
  {
  }

  lemma {:induction false} AddPathListed(t: Table, hops: seq<Hop>, flow: string, h: Hop, other: string)
    ensures Listed(AddPath(t, hops, flow), h, other)
         == Listed(t, h, other) + if other == flow then multiset(hops)[h] else 0
  {
    if hops != [] {
      var n := |hops| - 1;
      AddPathListed(t, hops[..n], flow, h, other);
      assert hops == hops[..n] + [hops[n]];
      AddFlowListed(AddPath(t, hops[..n], flow), hops[n], flow, h, other);
    }
  }

  lemma LastListed(routes: seq<Route>, flow: string, h: Hop)
    requires routes != []
    ensures var n := |routes| - 1;
      Listed(RouteAll(routes), h, flow) == Listed(RouteAll(routes[..n]), h, flow)
        + if routes[n].flow == flow then multiset(routes[n].hops)[h] else 0
  {
    var n := |routes| - 1;
    AddPathListed(RouteAll(routes[..n]), routes[n].hops, routes[n].flow, h, flow);
  }

  /** A flow that was not routed is not listed. */
  lemma {:induction false} UnroutedNotListed(routes: seq<Route>, flow: string, h: Hop)
    requires forall k :: 0 <= k < |routes| ==> routes[k].flow != flow
    ensures Listed(RouteAll(routes), h, flow) == 0
  {
    if routes != [] {
      LastListed(routes, flow, h);
      UnroutedNotListed(routes[..|routes| - 1], flow, h);
    }
  }

  /** A flow is listed at least as often as a route that bears its name asks for. */
  lemma {:induction false} RoutedListed(routes: seq<Route>, k: nat, h: Hop)
    requires k < |routes|
    ensures Listed(RouteAll(routes), h, routes[k].flow) >= multiset(routes[k].hops)[h]
  {
    LastListed(routes, routes[k].flow, h);
    if k < |routes| - 1 { RoutedListed(routes[..|routes| - 1], k, h); }
  }

  /** It is listed exactly that often when no other route bears its name. */
  lemma {:induction false} AloneListed(routes: seq<Route>, k: nat, h: Hop)
    requires k < |routes|
    requires forall m :: 0 <= m < |routes| && m != k ==> routes[m].flow != routes[k].flow
    ensures Listed(RouteAll(routes), h, routes[k].flow) == multiset(routes[k].hops)[h]
  {
    var n := |routes| - 1;
    LastListed(routes, routes[k].flow, h);
    if k < n { AloneListed(routes[..n], k, h); }
    else { UnroutedNotListed(routes[..n], routes[k].flow, h); }
  }

  lemma {:induction false} SharedNameListedTwice(routes: seq<Route>, k: nat, m: nat, h: Hop)
    requires k < m < |routes| && routes[k].flow == routes[m].flow
    ensures Listed(RouteAll(routes), h, routes[k].flow)
         >= multiset(routes[k].hops)[h] + multiset(routes[m].hops)[h]
  {
    var n := |routes| - 1;
    LastListed(routes, routes[k].flow, h);
    if m < n { SharedNameListedTwice(routes[..n], k, m, h); }
    else { RoutedListed(routes[..n], k, h); }
  }

  /** Different routes have different flow names. */
  ghost predicate NamesSeparate(routes: seq<Route>) {
    forall i, j :: 0 <= i < j < |routes| ==> routes[i].flow != routes[j].flow
  }

  /** Every flow is listed on every segment exactly as often as the segment is on its own path. */
  ghost predicate Incidence(routes: seq<Route>) {
    forall k, h :: 0 <= k < |routes| ==>
      Listed(RouteAll(routes), h, routes[k].flow) == multiset(routes[k].hops)[h]
  }

  /** Flows and segments agree exactly when no two routes share a flow name. */
  lemma IncidenceExactly(routes: seq<Route>)
    requires forall k :: 0 <= k < |routes| ==> routes[k].hops != []
    ensures Incidence(routes) <==> NamesSeparate(routes)
  {
    if NamesSeparate(routes) {
      forall k, h | 0 <= k < |routes|
        ensures Listed(RouteAll(routes), h, routes[k].flow) == multiset(routes[k].hops)[h]
      {
        AloneListed(routes, k, h);
      }
    } else {
      var i, j :| 0 <= i < j < |routes| && routes[i].flow == routes[j].flow;
      var h := routes[j].hops[0];
      SharedNameListedTwice(routes, i, j, h);
      assert h in multiset(routes[j].hops);
      assert Listed(RouteAll(routes), h, routes[i].flow) != multiset(routes[i].hops)[h];
    }
  }

  // ----- The routes of a scenario

  type Pathing = (NetElem, NetElem) -> seq<Hop>

  /** How a scenario routes. */
  function PathsOf(scenario: string): Pathing {
    (s, d) => PathOf(scenario, s, d)
  }

  /** The limit of a flow: the lower of what its two ends are configured for. */
  function EndsLimit(s: NetElem, d: NetElem): real {
    if s.throughputUl < d.throughputDl then s.throughputUl else d.throughputDl
  }

  function RouteOf(paths: Pathing, s: NetElem, d: NetElem): Route {
    Route(FlowName(s.name, d.name), paths(s, d), EndsLimit(s, d), s.distribution)
  }

  ghost predicate InRange(elems: seq<NetElem>, pairs: seq<(nat, nat)>) {
    forall k :: 0 <= k < |pairs| ==> pairs[k].0 < |elems| && pairs[k].1 < |elems|
  }

  /** The name of the flow of a pair of ends. */
  function NameOf(elems: seq<NetElem>, p: (nat, nat)): string
    requires p.0 < |elems| && p.1 < |elems|
  {
    FlowName(elems[p.0].name, elems[p.1].name)
  }

  ghost function RoutesOf(paths: Pathing, elems: seq<NetElem>, pairs: seq<(nat, nat)>): (routes: seq<Route>)
    requires InRange(elems, pairs)
    ensures |routes| == |pairs|
  {
    seq(|pairs|, k requires 0 <= k < |pairs| => RouteOf(paths, elems[pairs[k].0], elems[pairs[k].1]))
  }

  /** The ordered pairs of distinct ends, each once. */
  ghost predicate AllPairs(elems: seq<NetElem>, pairs: seq<(nat, nat)>) {
    && (forall k :: 0 <= k < |pairs| ==> pairs[k].0 < |elems| && pairs[k].1 < |elems| && pairs[k].0 != pairs[k].1)
    && (forall i, j | 0 <= i < |elems| && 0 <= j < |elems| && i != j :: (i, j) in pairs)
    && (forall i, j :: 0 <= i < j < |pairs| ==> pairs[i] != pairs[j])
  }

  /** The pairs listed when the sources before i are done and source i is done up to destination j. */
  ghost predicate Rows(elems: seq<NetElem>, pairs: seq<(nat, nat)>, i: nat, j: nat) {
    var rows :=
      && InRange(elems, pairs)
      && (forall k :: 0 <= k < |pairs| ==> pairs[k].0 != pairs[k].1 && Before(pairs[k].0, pairs[k].1, i, j))
      && (forall a, b | 0 <= a < |elems| && 0 <= b < |elems| && a != b && Before(a, b, i, j) :: (a, b) in pairs)
      && (forall k, m :: 0 <= k < m < |pairs| ==> pairs[k] != pairs[m]);
    rows
  }

  predicate Before(a: int, b: int, i: int, j: int) {
    a < i || (a == i && b < j)
  }

  lemma RowsStep(elems: seq<NetElem>, pairs: seq<(nat, nat)>, i: nat, j: nat)
    requires i < |elems| && j < |elems| && Rows(elems, pairs, i, j)
    ensures Rows(elems, pairs + if i == j then [] else [(i, j)], i, j + 1)
  {
    if i == j {
      NoMore(pairs);
    } else {
      var next := pairs + [(i, j)];
      forall a, b | 0 <= a < |elems| && 0 <= b < |elems| && a != b && Before(a, b, i, j + 1)
        ensures (a, b) in next
      {
        if !Before(a, b, i, j) { assert next[|pairs|] == (a, b); }
      }
    }
  }

  /** The routes of the pairs listed so far. */
  ghost predicate RoutesUpTo(paths: Pathing, elems: seq<NetElem>, pairs: seq<(nat, nat)>, routes: seq<Route>, i: nat,
                             j: nat) {
    var upTo := Rows(elems, pairs, i, j) && routes == RoutesOf(paths, elems, pairs);
    upTo
  }

  /** The pairs and routes in the order of the two loops: the sources before i are done, and source i up
      to destination j. */
  ghost function PairsTo(n: nat, i: nat, j: nat): seq<(nat, nat)>
    requires i <= n && j <= n && (j > 0 ==> i < n)
    decreases i, j
  {
    if j > 0 then PairsTo(n, i, j - 1) + if i == j - 1 then [] else [(i, j - 1)]
    else if i > 0 then PairsTo(n, i - 1, n)
    else []
  }

  ghost function RoutesTo(paths: Pathing, elems: seq<NetElem>, i: nat, j: nat): seq<Route>
    requires i <= |elems| && j <= |elems| && (j > 0 ==> i < |elems|)
    decreases i, j
  {
    if j > 0 then RoutesTo(paths, elems, i, j - 1) + if i == j - 1 then [] else [RouteOf(paths, elems[i], elems[j - 1])]
    else if i > 0 then RoutesTo(paths, elems, i - 1, |elems|)
    else []
  }

  lemma RoutesNext(paths: Pathing, elems: seq<NetElem>, i: nat, j: nat)
    requires i < |elems| && j < |elems|
    ensures RoutesTo(paths, elems, i, j + 1)
         == RoutesTo(paths, elems, i, j) + if i == j then [] else [RouteOf(paths, elems[i], elems[j])]
  {
  }

  lemma RoutesRow(paths: Pathing, elems: seq<NetElem>, i: nat)
    requires i < |elems|
    ensures RoutesTo(paths, elems, i + 1, 0) == RoutesTo(paths, elems, i, |elems|)
  {
  }

  /** What the loops have listed when the sources before i are done, and source i up to destination j. */
  ghost predicate ListedTo(paths: Pathing, elems: seq<NetElem>, i: nat, j: nat)
    requires i <= |elems| && j <= |elems| && (j > 0 ==> i < |elems|)
  {
    RoutesUpTo(paths, elems, PairsTo(|elems|, i, j), RoutesTo(paths, elems, i, j), i, j)
  }

  lemma ListedNext(paths: Pathing, elems: seq<NetElem>, i: nat, j: nat)
    requires i < |elems| && j < |elems| && ListedTo(paths, elems, i, j)
    ensures ListedTo(paths, elems, i, j + 1)
  {
    RowsStep(elems, PairsTo(|elems|, i, j), i, j);
    RoutesMore(paths, elems, PairsTo(|elems|, i, j), i, j);
  }

  lemma ListedRow(paths: Pathing, elems: seq<NetElem>, i: nat)
    requires i < |elems| && ListedTo(paths, elems, i, |elems|)
    ensures ListedTo(paths, elems, i + 1, 0)
  {
    RowDone(elems, PairsTo(|elems|, i, |elems|), i);
  }

  lemma ListedNone(paths: Pathing, elems: seq<NetElem>)
    ensures ListedTo(paths, elems, 0, 0)
  {
    NoRows(elems);
  }

  lemma NoRows(elems: seq<NetElem>)
    ensures Rows(elems, [], 0, 0)
  {
  }

  lemma RoutesMore(paths: Pathing, elems: seq<NetElem>, pairs: seq<(nat, nat)>, i: nat, j: nat)
    requires InRange(elems, pairs) && i < |elems| && j < |elems|
    ensures InRange(elems, pairs + if i == j then [] else [(i, j)])
    ensures RoutesOf(paths, elems, pairs + if i == j then [] else [(i, j)])
         == RoutesOf(paths, elems, pairs) + if i == j then [] else [RouteOf(paths, elems[i], elems[j])]
  {
    NoMore(pairs);
    NoMore(RoutesOf(paths, elems, pairs));
  }

  /** The loops list every ordered pair of distinct ends once, with its route. */
  lemma {:induction false} LoopsListPairs(paths: Pathing, elems: seq<NetElem>, i: nat, j: nat)
    requires i <= |elems| && j <= |elems| && (j > 0 ==> i < |elems|)
    ensures ListedTo(paths, elems, i, j)
    decreases i, j
  {
    if j > 0 {
      LoopsListPairs(paths, elems, i, j - 1);
      ListedNext(paths, elems, i, j - 1);
    } else if i > 0 {
      LoopsListPairs(paths, elems, i - 1, |elems|);
      ListedRow(paths, elems, i - 1);
    } else {
      ListedNone(paths, elems);
    }
  }

  lemma NoMore<T>(s: seq<T>)
    ensures s + [] == s
  {
  }

  lemma RowDone(elems: seq<NetElem>, pairs: seq<(nat, nat)>, i: nat)
    requires i < |elems| && Rows(elems, pairs, i, |elems|)
    ensures Rows(elems, pairs, i + 1, 0)
  {
  }

  /** With n ends there are n(n-1) pairs. */
  lemma {:induction false} LoopsCount(n: nat, i: nat, j: nat)
    requires i <= n && j <= n && (j > 0 ==> i < n)
    ensures |PairsTo(n, i, j)| == i * (n - 1) + j - if j > i then 1 else 0
    decreases i, j
  {
    if j > 0 {
      LoopsCount(n, i, j - 1);
    } else if i > 0 {
      LoopsCount(n, i - 1, n);
      assert i * (n - 1) == (i - 1) * (n - 1) + (n - 1);
    }
  }

  ghost predicate DistinctNames(elems: seq<NetElem>) {
    forall i, j :: 0 <= i < j < |elems| ==> elems[i].name != elems[j].name
  }

  /** Distinct names without a colon never share a flow name. */
  lemma PlainNamesSeparate(paths: Pathing, elems: seq<NetElem>, pairs: seq<(nat, nat)>)
    requires InRange(elems, pairs) && AllPairs(elems, pairs) && DistinctNames(elems)
    requires forall i :: 0 <= i < |elems| ==> ':' !in elems[i].name
    ensures NamesSeparate(RoutesOf(paths, elems, pairs))
  {
    var routes := RoutesOf(paths, elems, pairs);
    forall i, j | 0 <= i < j < |routes| ensures routes[i].flow != routes[j].flow {
      var (a, b) := pairs[i];
      var (c, d) := pairs[j];
      if routes[i].flow == routes[j].flow {
        FlowNameInjective(elems[a].name, elems[b].name, elems[c].name, elems[d].name);
      }
    }
  }

  // ----- Once each

  /** The names met on the way up from an end are all different. */
  predicate ChainDistinct(scenario: string, e: NetElem) {
    && e.name != e.phyLoc
    && (e.kind == "UE" ==> e.poa !in [e.name, e.phyLoc])
    && (e.kind != "DC" ==>
        && e.zone !in [e.name, e.phyLoc] && e.domain !in [e.name, e.phyLoc, e.zone]
        && (e.kind == "UE" ==> e.poa !in [e.zone, e.domain]))
    && scenario !in [e.name, e.phyLoc]
    && (e.kind == "UE" ==> scenario != e.poa)
    && (e.kind != "DC" ==> scenario !in [e.zone, e.domain])
  }

  /** The end on whose side a crossing lies. */
  function Side(s: NetElem, d: NetElem, h: Hop): NetElem {
    if h.dir == Uplink then s else d
  }

  function Once(b: bool): nat {
    if b then 1 else 0
  }

  lemma CrossCount(up: bool, src: string, down: bool, dst: string, h: Hop)
    ensures multiset(Cross(up, src, down, dst))[h]
         == if h.dir == Uplink then Once(up && h.elem == src) else Once(down && h.elem == dst)
  {
  }

  lemma AfterDomainsCount(scenario: string, s: NetElem, d: NetElem, h: Hop)
    ensures multiset(AfterDomains(scenario, s, d))[h] == Once(s.domain != d.domain && h.elem == scenario)
  {
    CrossCount(true, scenario, true, scenario, h);
  }

  /** One level: its own crossings and those after it. */
  lemma LevelCount(up: bool, src: string, down: bool, dst: string, after: seq<Hop>, h: Hop)
    ensures multiset(Cross(up, src, down, dst) + after)[h]
         == multiset(after)[h] + if h.dir == Uplink then Once(up && h.elem == src) else Once(down && h.elem == dst)
  {
    CrossCount(up, src, down, dst, h);
    CountAppend(Cross(up, src, down, dst), after, h);
  }

  lemma AfterZonesCount(scenario: string, s: NetElem, d: NetElem, h: Hop)
    ensures var e := Side(s, d, h);
      multiset(AfterZones(scenario, s, d))[h]
      == if s.zone == d.zone then 0
         else Once(e.kind != "DC" && h.elem == e.domain) + Once(s.domain != d.domain && h.elem == scenario)
  {
    LevelCount(s.kind != "DC", s.domain, d.kind != "DC", d.domain, AfterDomains(scenario, s, d), h);
    AfterDomainsCount(scenario, s, d, h);
  }

  lemma AfterAccessCount(scenario: string, s: NetElem, d: NetElem, h: Hop)
    ensures var e := Side(s, d, h);
      multiset(AfterAccess(scenario, s, d))[h]
      == if s.poa == d.poa then 0
         else Once(e.kind != "DC" && h.elem == e.zone) + multiset(AfterZones(scenario, s, d))[h]
  {
    LevelCount(s.kind != "DC", s.zone, d.kind != "DC", d.zone, AfterZones(scenario, s, d), h);
  }

  lemma AfterAppsCount(scenario: string, s: NetElem, d: NetElem, h: Hop)
    ensures var e := Side(s, d, h);
      multiset(AfterApps(scenario, s, d))[h]
      == if s.phyLoc == d.phyLoc then 0
         else Once(e.kind == "UE" && h.elem == e.poa) + multiset(AfterAccess(scenario, s, d))[h]
  {
    LevelCount(s.kind == "UE", s.poa, d.kind == "UE", d.poa, AfterAccess(scenario, s, d), h);
  }

  lemma AppCount(s: NetElem, d: NetElem, after: seq<Hop>, h: Hop)
    ensures var e := Side(s, d, h);
      multiset(AppHops(s, d) + after)[h] == Once(h.elem == e.name) + Once(h.elem == e.phyLoc) + multiset(after)[h]
  {
    CrossCount(true, s.name, true, d.name, h);
    CrossCount(true, s.phyLoc, true, d.phyLoc, h);
    CountAppend(Cross(true, s.name, true, d.name), Cross(true, s.phyLoc, true, d.phyLoc), h);
    CountAppend(AppHops(s, d), after, h);
  }

  /** How often a path crosses an element in a direction: once for the end on that side, once for its
      physical location, and once for each level above that the two ends do not share. */
  lemma PathCount(scenario: string, s: NetElem, d: NetElem, h: Hop)
    ensures var e := Side(s, d, h);
      multiset(PathOf(scenario, s, d))[h]
      == Once(h.elem == e.name) + Once(h.elem == e.phyLoc)
         + if s.phyLoc == d.phyLoc then 0
           else Once(e.kind == "UE" && h.elem == e.poa)
                + Once(s.poa != d.poa && e.kind != "DC" && h.elem == e.zone)
                + Once(s.poa != d.poa && s.zone != d.zone && e.kind != "DC" && h.elem == e.domain)
                + Once(s.poa != d.poa && s.zone != d.zone && s.domain != d.domain && h.elem == scenario)
  {
    AppCount(s, d, AfterApps(scenario, s, d), h);
    AfterAppsCount(scenario, s, d, h);
    AfterAccessCount(scenario, s, d, h);
    AfterZonesCount(scenario, s, d, h);
  }

  /** What a path crosses on a side is exactly the end, its physical location, and, where the physical
      locations differ, the point of access of a UE; where these differ too, the zone; where these differ,
      the domain, and where the domains differ, the scenario. There is no zone or domain above a DC. */
  lemma CrossedExactly(scenario: string, s: NetElem, d: NetElem, h: Hop)
    ensures var e := Side(s, d, h);
      h in PathOf(scenario, s, d) <==>
      || h.elem == e.name
      || h.elem == e.phyLoc
      || (s.phyLoc != d.phyLoc && e.kind == "UE" && h.elem == e.poa)
      || (s.phyLoc != d.phyLoc && s.poa != d.poa && e.kind != "DC" && h.elem == e.zone)
      || (s.phyLoc != d.phyLoc && s.poa != d.poa && s.zone != d.zone && e.kind != "DC" && h.elem == e.domain)
      || (s.phyLoc != d.phyLoc && s.poa != d.poa && s.zone != d.zone && s.domain != d.domain && h.elem == scenario)
  {
    PathCount(scenario, s, d, h);
    assert h in PathOf(scenario, s, d) <==> multiset(PathOf(scenario, s, d))[h] >= 1;
  }

  /** The uplink and the downlink of the scenario are crossed exactly between ends that share nothing. */
  lemma InterDomainExactly(scenario: string, s: NetElem, d: NetElem)
    requires ChainDistinct(scenario, s) && ChainDistinct(scenario, d)
    ensures Hop(scenario, Uplink) in PathOf(scenario, s, d)
      <==> s.phyLoc != d.phyLoc && s.poa != d.poa && s.zone != d.zone && s.domain != d.domain
    ensures Hop(scenario, Downlink) in PathOf(scenario, s, d) <==> Hop(scenario, Uplink) in PathOf(scenario, s, d)
  {
    CrossedExactly(scenario, s, d, Hop(scenario, Uplink));
    CrossedExactly(scenario, s, d, Hop(scenario, Downlink));
  }

  lemma CountAppend(p: seq<Hop>, q: seq<Hop>, h: Hop)
    ensures multiset(p + q)[h] == multiset(p)[h] + multiset(q)[h]
  {
  }

  lemma HopsOnce(scenario: string, s: NetElem, d: NetElem, h: Hop)
    requires ChainDistinct(scenario, s) && ChainDistinct(scenario, d)
    ensures multiset(PathOf(scenario, s, d))[h] <= 1
  {
    PathCount(scenario, s, d, h);
    ChainCount(scenario, Side(s, d, h), h.elem);
  }

  lemma ChainCount(scenario: string, e: NetElem, n: string)
    requires ChainDistinct(scenario, e)
    ensures Once(n == e.name) + Once(n == e.phyLoc) + Once(e.kind == "UE" && n == e.poa)
            + Once(e.kind != "DC" && n == e.zone) + Once(e.kind != "DC" && n == e.domain) + Once(n == scenario) <= 1
  {
  }

  /** A path crosses each of its segments once. */
  lemma SegmentsOnce(scenario: string, s: NetElem, d: NetElem, h: Hop)
    requires ChainDistinct(scenario, s) && ChainDistinct(scenario, d)
    ensures multiset(PathOf(scenario, s, d))[h] == if h in PathOf(scenario, s, d) then 1 else 0
  {
    HopsOnce(scenario, s, d, h);
  }
}
