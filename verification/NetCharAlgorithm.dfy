/** The tick of the algorithm: every segment is evaluated, in whatever order the segment map is
    iterated, and the flows whose characteristics changed are reported. */
module NetCharAlgorithm {
  import opened Common
  import opened SegmentShares
  import opened SegmentAlgorithm
  import opened FlowRouting
  import opened ScenarioTables

  // ----- Figures added up over the segments of a flow

  /** The sum of a figure over a set of segments; the order of addition is left open. */
  ghost function SumOver(segments: set<Segment>, figure: Segment -> real): real {
    if segments == {} then 0.0
    else
      var s :| s in segments;
      SumOver(segments - {s}, figure) + figure(s)
  }

  lemma {:induction false} SumOverRemove(segments: set<Segment>, figure: Segment -> real, s: Segment)
    requires s in segments
    ensures SumOver(segments, figure) == SumOver(segments - {s}, figure) + figure(s)
    decreases segments
  {
    var t :| t in segments && SumOver(segments, figure) == SumOver(segments - {t}, figure) + figure(t);
    if t != s {
      SumOverRemove(segments - {t}, figure, s);
      SumOverRemove(segments - {s}, figure, t);
      assert segments - {t} - {s} == segments - {s} - {t};
    }
  }

  ghost function Carriers(segments: set<Segment>, f: Flow): set<Segment>
    reads segments`flows
  {
    set s | s in segments && f in s.flows
  }

  const LATENCY: Segment -> real := (s: Segment) => s.netChar.latency
  const JITTER: Segment -> real := (s: Segment) => s.netChar.jitter

  /** The packet loss of a flow after one more segment. */
  function LossStep(have: real, loss: real): real {
    if have == 0.0 then loss else if loss != 0.0 then have + have * (1.0 - loss) else have
  }

  /** The packet loss of two lossy segments depends on which is visited first, unless they lose the same. */
  lemma LossDependsOnOrder(a: real, b: real)
    requires a != 0.0 && b != 0.0
    ensures LossStep(LossStep(0.0, a), b) == LossStep(LossStep(0.0, b), a) <==> a == b
  {
    assert a * (1.0 - b) == a - a * b && b * (1.0 - a) == b - a * b;
  }

  /** The packet loss of a flow after a sequence of visits. */
  ghost function LossAlong(order: seq<Segment>, f: Flow): real
    reads order`flows
  {
    if order == [] then 0.0
    else
      var n := |order| - 1;
      var have := LossAlong(order[..n], f);
      if f in order[n].flows then LossStep(have, order[n].netChar.packetLoss) else have
  }

  /** What a segment sees when it is evaluated: its flows and what they demand. */
  datatype Crossing = Crossing(flows: seq<Flow>, demands: seq<Demand>)

  type View = map<Segment, Crossing>

  ghost predicate Sees(s: Segment, x: Crossing)
    reads s`flows, s.flows`demand
  {
    x.flows == s.flows && x.demands == Demands(s.flows)
  }

  /** The rate a segment offers a flow it carries. */
  ghost function OfferOf(v: View, s: Segment, f: Flow): Option<real> {
    if s in v && |v[s].demands| == |v[s].flows| && f in v[s].flows then
      Offer(s.settings, v[s].demands, v[s].flows, f)
    else None
  }

  /** The held rate is the least of the offers of some segments, MAX_THROUGHPUT if there is none. */
  ghost predicate LeastOffer(v: View, segments: set<Segment>, f: Flow, rate: real) {
    && rate <= MAX_THROUGHPUT
    && (forall s :: s in segments && OfferOf(v, s, f).Some? ==> rate <= OfferOf(v, s, f).value)
    && (rate == MAX_THROUGHPUT || exists s :: s in segments && OfferOf(v, s, f) == Some(rate))
  }

  /** The least offer is one rate: whatever order led to it, the outcome is the same. */
  lemma LeastOfferUnique(v: View, segments: set<Segment>, f: Flow, a: real, b: real)
    requires LeastOffer(v, segments, f, a) && LeastOffer(v, segments, f, b)
    ensures a == b
  {
  }

  lemma LeastOfferLowered(v: View, done: set<Segment>, s: Segment, f: Flow, held: real)
    requires LeastOffer(v, done, f, held)
    ensures LeastOffer(v, done + {s}, f, Lowered(held, OfferOf(v, s, f)))
  {
    LeastLowered(v, done, s, f, held, OfferOf(v, s, f));
  }

  lemma LeastLowered(v: View, done: set<Segment>, s: Segment, f: Flow, held: real, offer: Option<real>)
    requires LeastOffer(v, done, f, held) && offer == OfferOf(v, s, f)
    ensures LeastOffer(v, done + {s}, f, Lowered(held, offer))
  {
    var now, all := Lowered(held, offer), done + {s};
    forall t | t in all && OfferOf(v, t, f).Some? ensures now <= OfferOf(v, t, f).value {
      assert t in done || t == s;
    }
    if now == held && held != MAX_THROUGHPUT {
      var t :| t in done && OfferOf(v, t, f) == Some(held);
      assert t in all;
    } else if now != held {
      assert s in all && OfferOf(v, s, f) == Some(now);
    }
  }

  /** The whole plan a segment makes for a flow it carries. */
  ghost function PlanOf(v: View, s: Segment, f: Flow): Option<Plan> {
    if s in v && |v[s].demands| == |v[s].flows| && f in v[s].flows then
      PlanOffer(s.settings, v[s].demands, v[s].flows, f)
    else None
  }

  /** Every one of the segments evaluates orderly flows. */
  ghost predicate AllOrderly(v: View, segments: set<Segment>) {
    forall s :: s in segments && s in v ==> OrderlyDemands(s.settings, v[s].demands)
  }

  /** The held plan is one of those that offer the least rate, bounds and all, or none was made. */
  ghost predicate LeastPlan(v: View, segments: set<Segment>, f: Flow, p: Plan) {
    var least :=
      && LeastOffer(v, segments, f, p.throughput)
      && (AllOrderly(v, segments) ==> p == MAX_PLAN || exists s :: s in segments && PlanOf(v, s, f) == Some(p));
    least
  }

  lemma LeastPlanLowered(v: View, done: set<Segment>, s: Segment, f: Flow, held: Plan, now: Plan)
    requires LeastPlan(v, done, f, held) && s in v
    requires now.throughput == Lowered(held.throughput, OfferOf(v, s, f))
    requires OrderlyDemands(s.settings, v[s].demands) ==> now == LoweredPlan(held, PlanOf(v, s, f))
    ensures LeastPlan(v, done + {s}, f, now)
  {
    var all := done + {s};
    LeastOfferLowered(v, done, s, f, held.throughput);
    assert s in all;
    if AllOrderly(v, all) {
      OrderlyBefore(v, done, s);
      if now != MAX_PLAN && now == held {
        var t :| t in done && PlanOf(v, t, f) == Some(held);
        assert t in all;
      }
    }
  }

  /** What a segment offers is read off what it sees. */
  lemma OfferSeen(v: View, s: Segment, f: Flow, fs: seq<Flow>, ds: seq<Demand>)
    requires s in v && v[s] == Crossing(fs, ds) && |ds| == |fs|
    ensures OfferOf(v, s, f) == if f in fs then Offer(s.settings, ds, fs, f) else None
    ensures PlanOf(v, s, f) == if f in fs then PlanOffer(s.settings, ds, fs, f) else None
  {
  }

  lemma OrderlyBefore(v: View, done: set<Segment>, s: Segment)
    requires AllOrderly(v, done + {s}) && s in v
    ensures AllOrderly(v, done) && OrderlyDemands(s.settings, v[s].demands)
  {
    forall t | t in done && t in v ensures OrderlyDemands(t.settings, v[t].demands) { assert t in done + {s}; }
    assert s in done + {s};
  }

  /** A crossing may have its empty list before its first flow. */
  lemma AddFlowAgain(t: Table, h: Hop, flow: string)
    ensures AddFlow(t[h := Carried(t, h)], h, flow) == AddFlow(t, h, flow)
  {
  }

  lemma SameRow(t: Table, h: Hop)
    requires h in t
    ensures t[h := Carried(t, h)] == t
  {
  }

  lemma SameEntry<T>(m: map<string, T>, k: string)
    requires k in m
    ensures m[k := m[k]] == m
  {
  }

  /** The segment carries only flows of the set. */
  ghost predicate CarriesOnly(s: Segment, flows: set<Flow>)
    reads s`flows
  {
    forall k :: 0 <= k < |s.flows| ==> s.flows[k] in flows
  }

  /** The segment carries some of the flows, each at most once. */
  ghost predicate Carry(s: Segment, flows: set<Flow>)
    reads s`flows
  {
    Distinct(s.flows) && CarriesOnly(s, flows)
  }

  /** What the two loops route, over all sources. */
  lemma AllRoutes(paths: Pathing, elems: seq<NetElem>) returns (pairs: seq<(nat, nat)>, routes: seq<Route>)
    ensures routes == RoutesTo(paths, elems, |elems|, 0)
    ensures RoutesUpTo(paths, elems, pairs, routes, |elems|, 0) && |pairs| == |elems| * (|elems| - 1)
  {
    pairs, routes := PairsTo(|elems|, |elems|, 0), RoutesTo(paths, elems, |elems|, 0);
    LoopsListPairs(paths, elems, |elems|, 0);
    LoopsCount(|elems|, |elems|, 0);
  }

  /** No later route has the name of a route. */
  ghost predicate LastOfName(routes: seq<Route>, k: nat)
    requires k < |routes|
  {
    forall m :: k < m < |routes| ==> routes[m].flow != routes[k].flow
  }

  lemma LastBefore(routes: seq<Route>, r: Route, k: nat)
    requires k < |routes| && LastOfName(routes + [r], k)
    ensures LastOfName(routes, k) && (routes + [r])[k] == routes[k] && r.flow != routes[k].flow
  {
    var more := routes + [r];
    assert more[|routes|] == r && more[k] == routes[k];
    forall m | k < m < |routes| ensures routes[m].flow != routes[k].flow { assert more[m] == routes[m]; }
  }

  /** The paths are those routed last under their name. */
  ghost predicate PathedIn(paths: map<string, seq<Segment>>, segments: set<Segment>, routes: seq<Route>) {
    forall k {:trigger LastOfName(routes, k)} :: 0 <= k < |routes| && LastOfName(routes, k) ==>
      routes[k].flow in paths && Runs(paths[routes[k].flow], segments, routes[k].hops)
  }

  lemma PathedMore(before: map<string, Standing>, segments: set<Segment>, now: map<string, Standing>,
                   more: set<Segment>, routes: seq<Route>, r: Route)
    requires PathedIn(PathsIn(before), segments, routes) && segments <= more && StandsAnew(before, now, r, more)
    ensures PathedIn(PathsIn(now), more, routes + [r])
  {
    var all, paths := routes + [r], PathsIn(now);
    forall k | 0 <= k < |all| && LastOfName(all, k)
      ensures all[k].flow in paths && Runs(paths[all[k].flow], more, all[k].hops)
    {
      if k < |routes| { LastBefore(routes, r, k); }
    }
  }

  /** How a flow stands: what routing sets of it, and what is allotted and applied. */
  datatype Standing = Standing(path: seq<Segment>, limit: real, distribution: string, rerouted: bool, allocation: real,
                               applied: NetChar)

  const NO_STANDING := Standing([], 0.0, "", false, 0.0, NO_NETCHAR)

  ghost function StandingOf(f: Flow): Standing
    reads f`path, f`demand, f`distribution, f`applied
  {
    Standing(f.path, f.demand.configured, f.distribution, f.demand.updateRequired, f.demand.allocation, f.applied)
  }

  function StandingIn(standings: map<string, Standing>, name: string): Standing {
    if name in standings then standings[name] else NO_STANDING
  }

  /** The route is the only one with its name. */
  ghost predicate OnlyOfName(routes: seq<Route>, k: nat)
    requires k < |routes|
  {
    forall m :: 0 <= m < |routes| && m != k ==> routes[m].flow != routes[k].flow
  }

  /** A flow stands as it is routed last under its name; it is marked as rerouted if its crossings are not
      those of its path at the start. */
  ghost predicate StandsAs(now: map<string, Standing>, was: map<string, Standing>, routes: seq<Route>, k: nat)
    requires k < |routes|
  {
    var r := routes[k];
    && (LastOfName(routes, k) ==> r.flow in now && now[r.flow].limit == r.limit && now[r.flow].distribution == r.distribution)
    && (OnlyOfName(routes, k) ==> r.flow in now && now[r.flow].rerouted == !Through(StandingIn(was, r.flow).path, r.hops))
  }

  /** All flows routed stand as routed; what is allotted and applied, and the paths of others, are as at
      the start. */
  ghost predicate PopulatedIn(now: map<string, Standing>, was: map<string, Standing>, routes: seq<Route>) {
    && (forall k {:trigger StandsAs(now, was, routes, k)} :: 0 <= k < |routes| ==> StandsAs(now, was, routes, k))
    && (forall n {:trigger KeptUnlessRouted(now, was, routes, n)} :: KeptUnlessRouted(now, was, routes, n))
  }

  ghost predicate KeptUnlessRouted(now: map<string, Standing>, was: map<string, Standing>, routes: seq<Route>, n: string) {
    && (n in was ==> n in now)
    && StandingIn(now, n).allocation == StandingIn(was, n).allocation
    && StandingIn(now, n).applied == StandingIn(was, n).applied
    && (n in now ==> (n in was && now[n].path == was[n].path) || exists k :: 0 <= k < |routes| && routes[k].flow == n)
  }

  /** One flow stands anew as routed, over some segments; the others stand as before. */
  ghost predicate StandsAnew(before: map<string, Standing>, now: map<string, Standing>, r: Route, segments: set<Segment>) {
    && now.Keys == before.Keys + {r.flow}
    && (forall n :: n in before && n != r.flow ==> now[n] == before[n])
    && now[r.flow].limit == r.limit && now[r.flow].distribution == r.distribution
    && now[r.flow].rerouted == !Through(StandingIn(before, r.flow).path, r.hops)
    && now[r.flow].allocation == StandingIn(before, r.flow).allocation
    && now[r.flow].applied == StandingIn(before, r.flow).applied
    && Runs(now[r.flow].path, segments, r.hops)
  }

  function PathsIn(standings: map<string, Standing>): map<string, seq<Segment>> {
    map n | n in standings :: standings[n].path
  }

  lemma KeptMore(before: map<string, Standing>, was: map<string, Standing>, now: map<string, Standing>,
                 routes: seq<Route>, r: Route, segments: set<Segment>, n: string)
    requires PopulatedIn(before, was, routes) && StandsAnew(before, now, r, segments)
    ensures KeptUnlessRouted(now, was, routes + [r], n)
  {
    var all := routes + [r];
    assert KeptUnlessRouted(before, was, routes, n);
    if k :| 0 <= k < |routes| && routes[k].flow == n {
      assert all[k].flow == n;
    } else if n == r.flow {
      assert all[|routes|].flow == n;
    }
  }

  lemma PopulatedMore(before: map<string, Standing>, was: map<string, Standing>, now: map<string, Standing>,
                      routes: seq<Route>, r: Route, segments: set<Segment>)
    requires PopulatedIn(before, was, routes) && StandsAnew(before, now, r, segments)
    ensures PopulatedIn(now, was, routes + [r])
  {
    var all, n := routes + [r], |routes|;
    assert all[n] == r && forall k :: 0 <= k < n ==> all[k] == routes[k];
    forall k | 0 <= k < |all| ensures StandsAs(now, was, all, k) {
      if k < n {
        assert StandsAs(before, was, routes, k);
        if LastOfName(all, k) { LastBefore(routes, r, k); }
        if OnlyOfName(all, k) {
          assert all[n].flow != all[k].flow;
          forall m | 0 <= m < n && m != k ensures routes[m].flow != routes[k].flow { assert all[m] == routes[m]; }
        }
      } else if OnlyOfName(all, n) {
        assert KeptUnlessRouted(before, was, routes, r.flow);
        assert forall m :: 0 <= m < n ==> all[m].flow != r.flow;
      }
    }
    forall f ensures KeptUnlessRouted(now, was, all, f) {
      KeptMore(before, was, now, routes, r, segments, f);
    }
  }

  lemma WithoutLast(routes: seq<Route>, r: Route)
    ensures (routes + [r])[..|routes|] == routes
  {
  }

  class Algorithm {
    var flowMap: map<string, Flow>
    var segmentMap: map<Hop, Segment>
    var tuning: Tuning
    ghost var flowSet: set<Flow>  // the flows of the flow map
    ghost var segmentSet: set<Segment>  // the segments of the segment map
    ghost var table: Table  // which flows each segment lists, by crossing

    ghost predicate FlowsKeyed()
      reads this`flowMap, this`flowSet
    {
      && (forall n :: n in flowMap ==> flowMap[n] in flowSet && flowMap[n].name == n)
      && (forall f :: f in flowSet ==>
          f.name in flowMap && flowMap[f.name] == f && f.name == FlowName(f.src, f.dst))
    }

    ghost predicate SegmentsKeyed()
      reads this`segmentMap, this`segmentSet, this`flowSet, this`table, segmentSet`flows
    {
      var keyed :=
        && table.Keys == segmentMap.Keys
        && (forall h :: h in segmentMap ==> segmentMap[h] in segmentSet && segmentMap[h].hop == h)
        && (forall s :: s in segmentSet ==>
            && s.hop in segmentMap && segmentMap[s.hop] == s
            && CarriesOnly(s, flowSet) && Lists(table[s.hop], s.flows));
      keyed
    }

    ghost predicate SegmentsBuilt(plan: Hop -> Blueprint)
      reads this`segmentSet
    {
      forall s :: s in segmentSet ==> Built(s, plan)
    }

    ghost predicate Valid()
      reads this, segmentSet`flows
    {
      FlowsKeyed() && SegmentsKeyed()
    }

    /** What is allotted is what was last applied, and never negative. */
    ghost predicate Settled()
      reads this`flowSet, flowSet`demand, flowSet`applied
    {
      forall f :: f in flowSet ==> f.demand.allocation == f.applied.throughput >= 0.0
    }

    /** No segment lists a flow twice. */
    ghost predicate FlowsOnce()
      reads this`segmentSet, segmentSet`flows
    {
      forall s :: s in segmentSet ==> Distinct(s.flows)
    }

    // ----- Routing

    /** The segment of a crossing, created on first use; it lists no flow then. */
    method FindSegment(h: Hop, plan: Hop -> Blueprint) returns (segment: Segment)
      requires SegmentsKeyed() && SegmentsBuilt(plan)
      modifies this`segmentMap, this`segmentSet, this`table
      ensures SegmentsKeyed() && SegmentsBuilt(plan) && fresh(segmentSet - old(segmentSet))
      ensures old(segmentSet) <= segmentSet && segment in segmentSet && segment.hop == h
      ensures table == old(table)[h := Carried(old(table), h)]
    {
      if h in segmentMap {
        segment := segmentMap[h];
        SameRow(table, h);
      } else {
        segment := MakeSegment(h, plan);
      }
    }

    method MakeSegment(h: Hop, plan: Hop -> Blueprint) returns (segment: Segment)
      requires SegmentsKeyed() && SegmentsBuilt(plan) && h !in segmentMap
      modifies this`segmentMap, this`segmentSet, this`table
      ensures SegmentsKeyed() && SegmentsBuilt(plan) && fresh(segmentSet - old(segmentSet))
      ensures old(segmentSet) <= segmentSet && segment in segmentSet && segment.hop == h
      ensures table == old(table)[h := []]
    {
      segment := new Segment(h, plan(h).settings, plan(h).netChar);
      segmentMap, segmentSet := segmentMap[h := segment], segmentSet + {segment};
      table := table[h := []];
    }

    /** Finds or creates the segment of a crossing and adds the flow to it. */
    method CreateSegment(h: Hop, flow: Flow, plan: Hop -> Blueprint) returns (segment: Segment)
      requires SegmentsKeyed() && SegmentsBuilt(plan) && flow in flowSet
      modifies this`segmentMap, this`segmentSet, this`table, segmentSet`flows
      ensures SegmentsKeyed() && SegmentsBuilt(plan) && fresh(segmentSet - old(segmentSet))
      ensures old(segmentSet) <= segmentSet && segment in segmentSet && segment.hop == h
      ensures table == AddFlow(old(table), h, flow.name)
    {
      AddFlowAgain(table, h, flow.name);
      segment := FindSegment(h, plan);
      ListFlow(segment, flow);
    }

    method ListFlow(segment: Segment, flow: Flow)
      requires SegmentsKeyed() && segment in segmentSet && flow in flowSet
      modifies this`table, segment`flows
      ensures SegmentsKeyed() && table == AddFlow(old(table), segment.hop, flow.name)
    {
      ListsAppend(Carried(table, segment.hop), segment.flows, flow);
      segment.flows := segment.flows + [flow];
      table := AddFlow(table, segment.hop, flow.name);
    }

    /** Routes a flow over the crossings of its path, in order. */
    method CreatePath(flow: Flow, hops: seq<Hop>, plan: Hop -> Blueprint) returns (path: seq<Segment>)
      requires SegmentsKeyed() && SegmentsBuilt(plan) && flow in flowSet
      modifies this`segmentMap, this`segmentSet, this`table, segmentSet`flows
      ensures SegmentsKeyed() && SegmentsBuilt(plan) && fresh(segmentSet - old(segmentSet))
      ensures table == AddPath(old(table), hops, flow.name)
      ensures old(segmentSet) <= segmentSet && Runs(path, segmentSet, hops)
    {
      path := [];
      for i := 0 to |hops|
        invariant SegmentsKeyed() && SegmentsBuilt(plan) && fresh(segmentSet - old(segmentSet))
        invariant table == AddPath(old(table), hops[..i], flow.name)
        invariant old(segmentSet) <= segmentSet && Runs(path, segmentSet, hops[..i])
      {
        path := ExtendPath(path, hops, i, flow, plan, old(table));
      }
      WholeOf(hops);
    }

    /** One more crossing of a path. */
    method ExtendPath(path: seq<Segment>, hops: seq<Hop>, i: nat, flow: Flow, plan: Hop -> Blueprint, ghost start: Table)
      returns (path': seq<Segment>)
      requires SegmentsKeyed() && SegmentsBuilt(plan) && flow in flowSet
      requires i < |hops| && Runs(path, segmentSet, hops[..i]) && table == AddPath(start, hops[..i], flow.name)
      modifies this`segmentMap, this`segmentSet, this`table, segmentSet`flows
      ensures SegmentsKeyed() && SegmentsBuilt(plan) && fresh(segmentSet - old(segmentSet))
      ensures old(segmentSet) <= segmentSet && Runs(path', segmentSet, hops[..i + 1])
      ensures table == AddPath(start, hops[..i + 1], flow.name)
    {
      ghost var before := segmentSet;
      var segment := CreateSegment(hops[i], flow, plan);
      path' := path + [segment];
      AddPathStep(start, hops, i, flow.name);
      RunsMore(path, before, segmentSet, hops, i, segment);
    }

    /** The flow of a name, created on first use. */
    method FindFlow(name: string, src: string, dst: string) returns (flow: Flow)
      requires Valid() && name == FlowName(src, dst)
      modifies this`flowMap, this`flowSet
      ensures Valid() && flowSet == old(flowSet) + {flow} && flow.name == name && flowMap == old(flowMap)[name := flow]
      ensures if name in old(flowMap) then flow == old(flowMap)[name]
        else fresh(flow) && flow.src == src && flow.dst == dst && flow.applied == NO_NETCHAR
             && flow.demand == NO_DEMAND && flow.path == []
    {
      if name in flowMap {
        flow := flowMap[name];
        SameEntry(flowMap, name);
      } else {
        flow := new Flow(name, src, dst);
        flowMap, flowSet := flowMap[name := flow], flowSet + {flow};
      }
    }

    /** Gives a flow its limit and a new path. */
    method RerouteFlow(flow: Flow, limit: real, distribution: string, hops: seq<Hop>, plan: Hop -> Blueprint)
      requires SegmentsKeyed() && SegmentsBuilt(plan) && flow in flowSet
      modifies this`segmentMap, this`segmentSet, this`table, segmentSet`flows, {flow}`demand, {flow}`distribution, {flow}`path
      ensures SegmentsKeyed() && SegmentsBuilt(plan) && fresh(segmentSet - old(segmentSet))
      ensures flow.distribution == distribution && old(segmentSet) <= segmentSet && Runs(flow.path, segmentSet, hops)
      ensures flow.demand == old(flow.demand).(configured := limit,
                                               updateRequired := !Through(old(flow.path), hops))
      ensures table == AddPath(old(table), hops, flow.name)
    {
      var oldPath := flow.path;
      var path := CreatePath(flow, hops, plan);
      var changed := PathChanged(oldPath, path);
      flow.demand := flow.demand.(configured := limit, updateRequired := changed);
      flow.distribution, flow.path := distribution, path;
    }

    /** Creates or updates the flow between two ends and routes it over the crossings given. */
    method PopulateFlow(s: NetElem, d: NetElem, hops: seq<Hop>, plan: Hop -> Blueprint) returns (flow: Flow)
      requires Valid() && SegmentsBuilt(plan)
      modifies this`flowMap, this`flowSet, this`segmentMap, this`segmentSet, this`table, segmentSet`flows,
               flowSet`demand, flowSet`distribution, flowSet`path
      ensures Valid() && SegmentsBuilt(plan) && fresh(segmentSet - old(segmentSet))
      ensures flowSet == old(flowSet) + {flow} && flow.name == FlowName(s.name, d.name)
      ensures flowMap == old(flowMap)[flow.name := flow] && Added()
      ensures flow !in old(flowSet) ==>
        && fresh(flow) && flow.src == s.name && flow.dst == d.name && flow.applied == NO_NETCHAR
        && flow.demand == NO_DEMAND.(configured := EndsLimit(s, d), updateRequired := hops != [])
      ensures flow in old(flowSet) ==>
        flow.demand == old(flow.demand).(configured := EndsLimit(s, d),
                                         updateRequired := !Through(old(flow.path), hops))
      ensures flow.distribution == s.distribution && old(segmentSet) <= segmentSet && Runs(flow.path, segmentSet, hops)
      ensures forall f :: f in old(flowSet) && f != flow ==>
        f.demand == old(f.demand) && f.path == old(f.path) && f.distribution == old(f.distribution)
      ensures table == AddPath(old(table), hops, flow.name)
    {
      flow := FindFlow(FlowName(s.name, d.name), s.name, d.name);
      RerouteFlow(flow, EndsLimit(s, d), s.distribution, hops, plan);
    }

    ghost function PathMap(): map<string, seq<Segment>>
      reads this`flowMap, this`flowSet, flowSet`path
      requires FlowsKeyed()
    {
      map n | n in flowMap :: flowMap[n].path
    }

    /** The flows are on the path routed last under their name. */
    ghost predicate Pathed(routes: seq<Route>)
      reads this`flowMap, this`flowSet, flowSet`path, this`segmentSet
      requires FlowsKeyed()
    {
      PathedIn(PathMap(), segmentSet, routes)
    }

    /** How the flows stand. */
    ghost function Standings(): map<string, Standing>
      reads this`flowMap, this`flowSet, flowSet`path, flowSet`demand, flowSet`distribution, flowSet`applied
      requires FlowsKeyed()
    {
      map n | n in flowMap :: StandingOf(flowMap[n])
    }

    /** The flows stand as routed, from the paths at the start. */
    ghost predicate Populated(was: map<string, Standing>, routes: seq<Route>)
      reads this`flowMap, this`flowSet, flowSet`path, flowSet`demand, flowSet`distribution, flowSet`applied
    {
      FlowsKeyed() && PopulatedIn(Standings(), was, routes)
    }

    /** Nothing has been applied yet. */
    ghost predicate Started()
      reads this`flowSet, flowSet`applied, flowSet`demand
    {
      forall f :: f in flowSet ==> f.applied == NO_NETCHAR && f.demand.allocation == 0.0
    }

    /** The allocations are those before, and new flows start from nothing. */
    twostate predicate Grown()
      reads this`flowSet, flowSet
    {
      var grown :=
        && old(flowSet) <= flowSet
        && (forall f :: f in flowSet && f !in old(flowSet) ==>
            fresh(f) && f.applied == NO_NETCHAR && f.demand.allocation == 0.0)
        && (forall f :: f in old(flowSet) ==> f.demand.allocation == old(f.demand.allocation) && f.applied == old(f.applied));
      grown
    }

    /** Flows are only added. */
    twostate predicate Added()
      reads this`flowSet
    {
      old(flowSet) <= flowSet && forall f :: f in flowSet && f !in old(flowSet) ==> fresh(f)
    }

    lemma PathMapIs()
      requires FlowsKeyed()
      ensures PathMap() == PathsIn(Standings())
    {
    }

    lemma StandAnew(before: map<string, Standing>, flow: Flow, r: Route)
      requires FlowsKeyed() && flow in flowSet && flow.name == r.flow && flowMap.Keys == before.Keys + {r.flow}
      requires forall n :: n in before && n != r.flow ==> StandingOf(flowMap[n]) == before[n]
      requires flow.demand.configured == r.limit && flow.distribution == r.distribution && Runs(flow.path, segmentSet, r.hops)
      requires var stood := StandingIn(before, r.flow);
        && flow.demand.updateRequired == !Through(stood.path, r.hops)
        && flow.demand.allocation == stood.allocation && flow.applied == stood.applied
      ensures StandsAnew(before, Standings(), r, segmentSet)
    {
    }

    /** Where nothing was there and nothing is routed there is no flow. */
    lemma NoFlows()
      ensures Populated(map[], []) ==> flowSet == {}
    {
      assert FlowsKeyed() ==> forall f :: f in flowSet ==> f.name in Standings();
      assert FlowsKeyed() && Populated(map[], []) ==>
        forall f :: f in flowSet ==> KeptUnlessRouted(Standings(), map[], [], f.name);
    }

    lemma NonePopulated(was: map<string, Standing>)
      requires FlowsKeyed() && flowMap.Keys == was.Keys && forall n :: n in was ==> StandingOf(flowMap[n]) == was[n]
      ensures Populated(was, [])
    {
    }

    /** Populates a flow: it stands anew and the others as before. */
    method RestandFlow(s: NetElem, d: NetElem, paths: Pathing, plan: Hop -> Blueprint)
      requires Valid() && SegmentsBuilt(plan)
      modifies this`flowMap, this`flowSet, this`segmentMap, this`segmentSet, this`table, segmentSet`flows,
               flowSet`demand, flowSet`distribution, flowSet`path
      ensures Valid() && SegmentsBuilt(plan) && fresh(segmentSet - old(segmentSet)) && Added()
      ensures old(segmentSet) <= segmentSet
      ensures StandsAnew(old(Standings()), Standings(), RouteOf(paths, s, d), segmentSet)
      ensures table == AddPath(old(table), paths(s, d), FlowName(s.name, d.name))
    {
      ghost var before, flows, was := Standings(), flowMap, flowSet;
      StandingsKeyed();
      var flow := PopulateFlow(s, d, paths(s, d), plan);
      forall n | n in before && n != flow.name ensures StandingOf(flowMap[n]) == before[n] {
        assert flows[n] in was && flows[n] != flow;
      }
      StandAnew(before, flow, RouteOf(paths, s, d));
    }

    /** Routes one more flow. */
    method RouteFlow(s: NetElem, d: NetElem, paths: Pathing, plan: Hop -> Blueprint, ghost was: map<string, Standing>,
                     ghost routes: seq<Route>)
      returns (ghost routes': seq<Route>)
      requires Valid() && SegmentsBuilt(plan) && Pathed(routes) && table == RouteAll(routes) && Populated(was, routes)
      modifies this`flowMap, this`flowSet, this`segmentMap, this`segmentSet, this`table, segmentSet`flows,
               flowSet`demand, flowSet`distribution, flowSet`path
      ensures Valid() && SegmentsBuilt(plan) && fresh(segmentSet - old(segmentSet)) && Added()
      ensures routes' == routes + [RouteOf(paths, s, d)]
      ensures Pathed(routes') && table == RouteAll(routes') && Populated(was, routes')
    {
      ghost var standings, segments, r := Standings(), segmentSet, RouteOf(paths, s, d);
      PathMapIs();
      RestandFlow(s, d, paths, plan);
      PathMapIs();
      routes' := routes + [r];
      WithoutLast(routes, r);
      PathedMore(standings, segments, Standings(), segmentSet, routes, r);
      PopulatedMore(standings, was, Standings(), routes, r, segmentSet);
    }

    /** Everything routed so far is accounted for. */
    ghost predicate Routed(routes: seq<Route>, plan: Hop -> Blueprint)
      reads this, segmentSet`flows, flowSet`path
    {
      var accounted := Valid() && SegmentsBuilt(plan) && Pathed(routes) && table == RouteAll(routes);
      accounted
    }

    /** The sources before i are routed, and source i up to destination j. */
    ghost predicate RoutedTo(paths: Pathing, elems: seq<NetElem>, i: nat, j: nat, plan: Hop -> Blueprint,
                             was: map<string, Standing>)
      reads this, segmentSet`flows, flowSet`path, flowSet`demand, flowSet`distribution, flowSet`applied
      requires i <= |elems| && j <= |elems| && (j > 0 ==> i < |elems|)
    {
      Routed(RoutesTo(paths, elems, i, j), plan) && Populated(was, RoutesTo(paths, elems, i, j))
    }

    /** Routes the flow of one pair of ends, unless they are the same end. */
    method RoutePair(elems: seq<NetElem>, i: nat, j: nat, paths: Pathing, plan: Hop -> Blueprint,
                     ghost was: map<string, Standing>)
      requires DistinctNames(elems) && i < |elems| && j < |elems|
      requires RoutedTo(paths, elems, i, j, plan, was)
      modifies this`flowMap, this`flowSet, this`segmentMap, this`segmentSet, this`table, segmentSet`flows,
               flowSet`demand, flowSet`distribution, flowSet`path
      ensures RoutedTo(paths, elems, i, j + 1, plan, was) && fresh(segmentSet - old(segmentSet)) && Added()
    {
      ghost var routes := RoutesTo(paths, elems, i, j);
      RoutesNext(paths, elems, i, j);
      assert elems[i].name != elems[j].name <==> i != j;
      if elems[i].name != elems[j].name {
        ghost var more := RouteFlow(elems[i], elems[j], paths, plan, was, routes);
      } else {
        NoMore(routes);
      }
    }

    lemma RowRouted(elems: seq<NetElem>, i: nat, paths: Pathing, plan: Hop -> Blueprint, was: map<string, Standing>)
      requires i < |elems| && RoutedTo(paths, elems, i, |elems|, plan, was)
      ensures RoutedTo(paths, elems, i + 1, 0, plan, was)
    {
      RoutesRow(paths, elems, i);
    }

    /** Routes the flows of one source. */
    method RouteSource(elems: seq<NetElem>, i: nat, paths: Pathing, plan: Hop -> Blueprint,
                       ghost was: map<string, Standing>)
      requires DistinctNames(elems) && i < |elems| && RoutedTo(paths, elems, i, 0, plan, was)
      modifies this`flowMap, this`flowSet, this`segmentMap, this`segmentSet, this`table, segmentSet`flows,
               flowSet`demand, flowSet`distribution, flowSet`path
      ensures RoutedTo(paths, elems, i + 1, 0, plan, was) && fresh(segmentSet - old(segmentSet)) && Added()
    {
      for j := 0 to |elems|
        invariant RoutedTo(paths, elems, i, j, plan, was)
        invariant fresh(segmentSet - old(segmentSet))
        invariant Added()
      {
        RoutePair(elems, i, j, paths, plan, was);
      }
      RowRouted(elems, i, paths, plan, was);
    }

    /** Routes the flows of all sources. */
    method RouteAllSources(elems: seq<NetElem>, paths: Pathing, plan: Hop -> Blueprint, ghost was: map<string, Standing>)
      requires DistinctNames(elems) && RoutedTo(paths, elems, 0, 0, plan, was)
      modifies this`flowMap, this`flowSet, this`segmentMap, this`segmentSet, this`table, segmentSet`flows,
               flowSet`demand, flowSet`distribution, flowSet`path
      ensures RoutedTo(paths, elems, |elems|, 0, plan, was) && fresh(segmentSet - old(segmentSet)) && Added()
    {
      for i := 0 to |elems|
        invariant RoutedTo(paths, elems, i, 0, plan, was)
        invariant fresh(segmentSet - old(segmentSet))
        invariant Added()
      {
        RouteSource(elems, i, paths, plan, was);
      }
    }

    /** Builds the flows and segments of a scenario: one route for every ordered pair of ends.
        The ends come from a map keyed by name, so their names are distinct. */
    method ProcessScenario(scenario: string, elems: seq<NetElem>, chars: CharTable)
      returns (ghost pairs: seq<(nat, nat)>, ghost routes: seq<Route>)
      requires Valid() && DistinctNames(elems)
      modifies this`flowMap, this`flowSet, this`segmentMap, this`segmentSet, this`table,
               flowSet`demand, flowSet`distribution, flowSet`path
      ensures RoutesUpTo(PathsOf(scenario), elems, pairs, routes, |elems|, 0) && |pairs| == |elems| * (|elems| - 1)
      ensures Routed(routes, BlueprintsOf(tuning, chars)) && fresh(segmentSet)
      ensures if scenario == "" then fresh(flowSet) && Started() else Grown()
      ensures Populated(if scenario == "" then map[] else old(Standings()), routes)
    {
      ghost var was := if scenario == "" then map[] else Standings();
      StandingsKeyed();
      RouteAnew(scenario, elems, PathsOf(scenario), BlueprintsOf(tuning, chars));
      AllottedAsBefore(was, RoutesTo(PathsOf(scenario), elems, |elems|, 0));
      NoneAtStart();
      pairs, routes := AllRoutes(PathsOf(scenario), elems);
    }

    lemma StandingsKeyed()
      requires FlowsKeyed()
      ensures forall f :: f in flowSet ==> f.name in Standings() && Standings()[f.name] == StandingOf(f)
      ensures forall n :: n in Standings() ==> n in flowMap && flowMap[n] in flowSet && flowMap[n].name == n
    {
    }

    /** What is allotted and applied is as at the start. */
    lemma AllottedAsBefore(was: map<string, Standing>, routes: seq<Route>)
      requires FlowsKeyed() && Populated(was, routes)
      ensures forall f :: f in flowSet ==>
        f.demand.allocation == StandingIn(was, f.name).allocation && f.applied == StandingIn(was, f.name).applied
    {
      forall f | f in flowSet
        ensures f.demand.allocation == StandingIn(was, f.name).allocation && f.applied == StandingIn(was, f.name).applied
      {
        assert KeptUnlessRouted(Standings(), was, routes, f.name);
        assert Standings()[f.name] == StandingOf(f);
      }
    }

    lemma NoneAtStart()
      ensures forall n :: StandingIn(map[], n) == NO_STANDING
    {
    }

    method RouteAnew(scenario: string, elems: seq<NetElem>, paths: Pathing, plan: Hop -> Blueprint)
      requires Valid() && DistinctNames(elems)
      modifies this`flowMap, this`flowSet, this`segmentMap, this`segmentSet, this`table,
               flowSet`demand, flowSet`distribution, flowSet`path
      ensures Routed(RoutesTo(paths, elems, |elems|, 0), plan) && fresh(segmentSet)
      ensures fresh(flowSet - old(flowSet)) && if scenario == "" then fresh(flowSet) else old(flowSet) <= flowSet
      ensures Populated(if scenario == "" then map[] else old(Standings()), RoutesTo(paths, elems, |elems|, 0))
    {
      ghost var was := if scenario == "" then map[] else Standings();
      StartOver(scenario, plan);
      NonePopulated(was);
      RouteAllSources(elems, paths, plan, was);
    }

    /** Segments are forgotten, and flows too if there is no scenario. */
    method StartOver(scenario: string, ghost plan: Hop -> Blueprint)
      requires Valid()
      modifies this`flowMap, this`flowSet, this`segmentMap, this`segmentSet, this`table
      ensures Routed([], plan) && segmentSet == {}
      ensures flowMap == if scenario == "" then map[] else old(flowMap)
      ensures flowSet == if scenario == "" then {} else old(flowSet)
    {
      if scenario == "" {
        flowMap, flowSet := map[], {};
      }
      segmentMap, segmentSet, table := map[], {}, map[];
    }

    // ----- One tick

    method Reset()
      requires FlowsKeyed()
      modifies flowSet`maxPlanned, flowSet`computedLatency, flowSet`computedJitter, flowSet`computedPacketLoss
      ensures forall f :: f in flowSet ==>
        f.maxPlanned == MAX_PLAN && f.computedLatency == f.computedJitter == f.computedPacketLoss == 0.0
    {
      var rest := flowMap.Keys;
      while rest != {}
        invariant rest <= flowMap.Keys
        invariant forall f :: f in flowSet && f.name !in rest ==>
          f.maxPlanned == MAX_PLAN && f.computedLatency == f.computedJitter == f.computedPacketLoss == 0.0
      {
        var n :| n in rest;
        var flow := flowMap[n];
        flow.maxPlanned := MAX_PLAN;
        flow.computedLatency, flow.computedJitter, flow.computedPacketLoss := 0.0, 0.0, 0.0;
        rest := rest - {n};
      }
    }

    /** The segments of the segment map, in whatever order it is iterated. */
    method SegmentsInSomeOrder() returns (segments: seq<Segment>)
      requires SegmentsKeyed()
      ensures Distinct(segments) && forall s :: s in segments <==> s in segmentSet
    {
      segments := [];
      var rest := segmentMap.Keys;
      while rest != {}
        invariant rest <= segmentMap.Keys
        invariant Distinct(segments)
        invariant forall s :: s in segments <==> s in segmentSet && s.hop !in rest
      {
        var n :| n in rest;
        segments := segments + [segmentMap[n]];
        rest := rest - {n};
      }
    }

    /** Evaluates every segment, in any order. Each flow ends with the least of the rates its
        segments offer on what they saw, and with the sums of their latencies and jitters. */
    method ReCalculateNetChar() returns (ghost view: View, ghost order: seq<Segment>)
      requires Valid() && FlowsOnce()
      modifies segmentSet`fairShare, flowSet`planned, flowSet`maxPlanned, flowSet`computedLatency,
               flowSet`computedJitter, flowSet`computedPacketLoss
      ensures view.Keys == segmentSet && forall s :: s in view ==> Sees(s, view[s])
      ensures Distinct(order) && forall s :: s in order <==> s in segmentSet
      ensures forall f :: f in flowSet ==> LeastPlan(view, segmentSet, f, f.maxPlanned)
      ensures forall f :: f in flowSet ==> FiguresAre(f, segmentSet, order)
    {
      Reset();
      var segments := SegmentsInSomeOrder();
      assert forall i :: 0 <= i < |segments| ==> segments[i] in segmentSet;
      order := segments;
      view := EvaluateInOrder(segments, flowSet);
      assert Visited(segments) == segmentSet;
    }

    // ----- Measurements in, updates out

    /** Takes over the latest measured rates, by flow name; names of no flow are ignored. */
    method UpdateMetrics(measured: map<string, real>)
      requires FlowsKeyed()
      modifies flowSet`demand
      ensures forall f :: f in flowSet ==>
        f.demand == Measured(old(f.demand), f.name, measured)
    {
      var rest := measured.Keys;
      while rest != {}
        invariant rest <= measured.Keys
        invariant forall f :: f in flowSet ==>
          f.demand == old(f.demand).(current :=
            if f.name in measured && f.name !in rest then measured[f.name] else old(f.demand.current))
      {
        var n :| n in rest;
        if n in flowMap {
          var flow := flowMap[n];
          flow.demand := flow.demand.(current := measured[n]);
        }
        rest := rest - {n};
      }
    }

    /** Applies what was computed and reports exactly the flows whose characteristics changed, once each. */
    method ReportUpdates() returns (list: seq<FlowNetChar>, ghost who: seq<Flow>)
      requires FlowsKeyed() && Settled()
      modifies flowSet`demand, flowSet`applied
      ensures Settled()
      ensures forall f :: f in flowSet ==> f.applied == NetChar(f.computedLatency, f.computedJitter, f.computedPacketLoss,
              f.demand.allocation, f.distribution)
      ensures forall f :: f in flowSet ==> f.demand == AllottedNext(f, old(f.demand))
      ensures Distinct(who) && forall f :: f in who <==> f in flowSet && f.applied != old(f.applied)
      ensures |list| == |who| && forall k :: 0 <= k < |who| ==> list[k] == UpdateOf(who[k])
    {
      var flows := FlowsInSomeOrder();
      assert forall i :: 0 <= i < |flows| ==> flows[i] in flowSet;
      list, who := ReportFlows(flows);
    }

    /** Takes the measured rates and shares every segment. */
    method MeasureAndShare(measured: map<string, real>) returns (ghost view: View, ghost order: seq<Segment>)
      requires Valid() && FlowsOnce()
      modifies flowSet`demand, segmentSet`fairShare, flowSet`planned, flowSet`maxPlanned,
               flowSet`computedLatency, flowSet`computedJitter, flowSet`computedPacketLoss
      ensures view.Keys == segmentSet
      ensures forall s :: s in segmentSet ==> view[s].flows == s.flows && |view[s].demands| == |s.flows|
      ensures forall s, k :: s in segmentSet && 0 <= k < |s.flows| ==>
        view[s].demands[k] == Measured(old(s.flows[k].demand), s.flows[k].name, measured)
      ensures forall f :: f in flowSet ==> LeastPlan(view, segmentSet, f, f.maxPlanned)
      ensures Distinct(order) && forall s :: s in order <==> s in segmentSet
      ensures forall f :: f in flowSet ==> FiguresAre(f, segmentSet, order)
      ensures forall f :: f in flowSet ==> f.demand == Measured(old(f.demand), f.name, measured)
    {
      CarriedFlows();
      UpdateMetrics(measured);
      view, order := ReCalculateNetChar();
    }

    /** One tick: takes the measured rates, shares every segment, reports what changed. */
    method CalculateNetChar(measured: map<string, real>)
      returns (list: seq<FlowNetChar>, ghost who: seq<Flow>, ghost view: View, ghost order: seq<Segment>)
      requires Valid() && FlowsOnce() && Settled()
      modifies flowSet`demand, flowSet`applied, segmentSet`fairShare, flowSet`planned, flowSet`maxPlanned,
               flowSet`computedLatency, flowSet`computedJitter, flowSet`computedPacketLoss
      ensures Settled()
      ensures view.Keys == segmentSet
      ensures forall s :: s in segmentSet ==> view[s].flows == s.flows && |view[s].demands| == |s.flows|
      ensures forall s, k :: s in segmentSet && 0 <= k < |s.flows| ==>
        view[s].demands[k] == Measured(old(s.flows[k].demand), s.flows[k].name, measured)
      ensures forall f :: f in flowSet ==> LeastPlan(view, segmentSet, f, f.maxPlanned)
      ensures Distinct(order) && forall s :: s in order <==> s in segmentSet
      ensures forall f :: f in flowSet ==> FiguresAre(f, segmentSet, order)
      ensures forall f :: f in flowSet ==> f.applied == NetChar(f.computedLatency, f.computedJitter, f.computedPacketLoss,
              f.demand.allocation, f.distribution)
      ensures forall f :: f in flowSet ==> f.demand == AllottedNext(f, Measured(old(f.demand), f.name, measured))
      ensures Distinct(who) && forall f :: f in who <==> f in flowSet && f.applied != old(f.applied)
      ensures |list| == |who| && forall k :: 0 <= k < |who| ==> list[k] == UpdateOf(who[k])
    {
      view, order := MeasureAndShare(measured);
      list, who := ReportUpdates();
    }

    lemma CarriedFlows()
      requires SegmentsKeyed()
      ensures forall s, k :: s in segmentSet && 0 <= k < |s.flows| ==> s.flows[k] in flowSet
    {
    }

    /** The flows of the flow map, in whatever order it is iterated. */
    method FlowsInSomeOrder() returns (flows: seq<Flow>)
      requires FlowsKeyed()
      ensures Distinct(flows) && forall f :: f in flows <==> f in flowSet
    {
      flows := [];
      var rest := flowMap.Keys;
      while rest != {}
        invariant rest <= flowMap.Keys
        invariant Distinct(flows)
        invariant forall f :: f in flows <==> f in flowSet && f.name !in rest
      {
        var n :| n in rest;
        flows := flows + [flowMap[n]];
        rest := rest - {n};
      }
    }
  }

  /** Applies and reports flow by flow. */
  method ReportFlows(flows: seq<Flow>) returns (list: seq<FlowNetChar>, ghost who: seq<Flow>)
    requires Distinct(flows)
    requires forall i :: 0 <= i < |flows| ==> flows[i].demand.allocation == flows[i].applied.throughput >= 0.0
    modifies flows`demand, flows`applied
    ensures forall i :: 0 <= i < |flows| ==>
      && flows[i].demand.allocation == flows[i].applied.throughput >= 0.0
      && flows[i].applied == NetChar(flows[i].computedLatency, flows[i].computedJitter, flows[i].computedPacketLoss,
              flows[i].demand.allocation, flows[i].distribution)
      && flows[i].demand == AllottedNext(flows[i], old(flows[i].demand))
    ensures Distinct(who) && forall f :: f in who <==> f in flows && f.applied != old(f.applied)
    ensures |list| == |who| && forall k :: 0 <= k < |who| ==> list[k] == UpdateOf(who[k])
  {
    list, who := [], [];
    for i := 0 to |flows|
      invariant forall k :: 0 <= k < i ==>
        && flows[k].demand.allocation == flows[k].applied.throughput >= 0.0
        && flows[k].applied == NetChar(flows[k].computedLatency, flows[k].computedJitter, flows[k].computedPacketLoss,
                flows[k].demand.allocation, flows[k].distribution)
        && flows[k].demand == AllottedNext(flows[k], old(flows[k].demand))
      invariant forall k :: i <= k < |flows| ==>
        flows[k].demand == old(flows[k].demand) && flows[k].applied == old(flows[k].applied)
      invariant Distinct(who) && forall f :: f in who <==> f in flows[..i] && f.applied != old(f.applied)
      invariant |list| == |who| && forall k :: 0 <= k < |who| ==> list[k] == UpdateOf(who[k])
    {
      assert flows[..i + 1] == flows[..i] + [flows[i]];
      var changed := ApplyComputed(flows[i]);
      if changed {
        list := list + [FlowNetChar(flows[i].src, flows[i].dst, flows[i].applied)];
        who := who + [flows[i]];
      }
    }
    assert flows[..|flows|] == flows;
  }

  /** A demand after the latest measurements, by flow name. */
  function Measured(d: Demand, name: string, measured: map<string, real>): Demand {
    d.(current := if name in measured then measured[name] else d.current)
  }

  /** One update: the two ends of a flow and its characteristics. */
  datatype FlowNetChar = FlowNetChar(src: string, dst: string, netChar: NetChar)

  function UpdateOf(f: Flow): FlowNetChar
    reads f`applied
  {
    FlowNetChar(f.src, f.dst, f.applied)
  }

  /** The allotment after the tick: a plan for another rate is taken over with its bounds, unless no segment
      made one or it is negative. */
  function AllottedNext(f: Flow, d: Demand): Demand
    reads f`maxPlanned
  {
    var p := f.maxPlanned;
    if p.throughput != MAX_THROUGHPUT && p.throughput >= 0.0 && p.throughput != d.allocation
    then d.(allocation := p.throughput, lowerBound := p.lower, upperBound := p.upper) else d
  }

  /** Applies what was computed for one flow and tells whether an update is needed. */
  method ApplyComputed(flow: Flow) returns (changed: bool)
    requires flow.demand.allocation == flow.applied.throughput >= 0.0
    modifies flow`demand, flow`applied
    ensures flow.demand.allocation == flow.applied.throughput >= 0.0
    ensures flow.applied == NetChar(flow.computedLatency, flow.computedJitter, flow.computedPacketLoss,
            flow.demand.allocation, flow.distribution)
    ensures flow.demand == AllottedNext(flow, old(flow.demand))
    ensures changed <==> flow.applied != old(flow.applied)
  {
    changed := false;
    if flow.maxPlanned.throughput != flow.demand.allocation && flow.maxPlanned.throughput != MAX_THROUGHPUT {
      if flow.maxPlanned.throughput >= 0.0 {
        flow.demand := flow.demand.(allocation := flow.maxPlanned.throughput, lowerBound := flow.maxPlanned.lower,
                                    upperBound := flow.maxPlanned.upper);
        flow.applied := flow.applied.(throughput := flow.demand.allocation);
        changed := true;
      }
    }
    if flow.computedLatency != flow.applied.latency || flow.computedJitter != flow.applied.jitter
       || flow.computedPacketLoss != flow.applied.packetLoss || flow.distribution != flow.applied.distribution
    {
      flow.applied := flow.applied.(latency := flow.computedLatency, jitter := flow.computedJitter,
                                    packetLoss := flow.computedPacketLoss, distribution := flow.distribution);
      changed := true;
    }
  }

  /** Whether two paths differ, segment by segment. */
  method PathChanged(was: seq<Segment>, now: seq<Segment>) returns (changed: bool)
    ensures changed <==> !(|was| == |now| && forall i :: 0 <= i < |now| ==> was[i].hop == now[i].hop)
  {
    if |was| != |now| { return true; }
    for i := 0 to |now|
      invariant forall k :: 0 <= k < i ==> was[k].hop == now[k].hop
    {
      if now[i].hop != was[i].hop { return true; }
    }
    return false;
  }

  ghost function Visited(segments: seq<Segment>): set<Segment> {
    set s | s in segments
  }

  lemma VisitedStep(segments: seq<Segment>, i: nat)
    requires Distinct(segments) && i < |segments|
    ensures segments[i] in Visited(segments) && segments[i] !in Visited(segments[..i])
    ensures Visited(segments[..i + 1]) == Visited(segments[..i]) + {segments[i]}
    ensures segments[..i + 1] == segments[..i] + [segments[i]]
  {
    assert segments[..i + 1] == segments[..i] + [segments[i]];
  }

  method EvaluateInOrder(segments: seq<Segment>, ghost flows: set<Flow>) returns (ghost view: View)
    requires Distinct(segments) && forall i :: 0 <= i < |segments| ==> Carry(segments[i], flows)
    requires forall f :: f in flows ==>
      f.maxPlanned == MAX_PLAN && f.computedLatency == f.computedJitter == f.computedPacketLoss == 0.0
    modifies segments`fairShare, flows`planned, flows`maxPlanned, flows`computedLatency, flows`computedJitter,
             flows`computedPacketLoss
    ensures view.Keys == Visited(segments) && forall s :: s in view ==> Sees(s, view[s])
    ensures forall f :: f in flows ==> LeastPlan(view, Visited(segments), f, f.maxPlanned)
    ensures forall f :: f in flows ==> FiguresAre(f, Visited(segments), segments)
  {
    view := map s | s in Visited(segments) :: Crossing(s.flows, Demands(s.flows));
    EvaluateAll(segments, flows, view);
  }

  /** Evaluates the segments in the order given. */
  method EvaluateAll(segments: seq<Segment>, ghost flows: set<Flow>, ghost view: View)
    requires Distinct(segments) && forall i :: 0 <= i < |segments| ==> Carry(segments[i], flows)
    requires forall i :: 0 <= i < |segments| ==> segments[i] in view && Sees(segments[i], view[segments[i]])
    requires forall f :: f in flows ==>
      f.maxPlanned == MAX_PLAN && f.computedLatency == f.computedJitter == f.computedPacketLoss == 0.0
    modifies segments`fairShare, flows`planned, flows`maxPlanned, flows`computedLatency, flows`computedJitter,
             flows`computedPacketLoss
    ensures forall f :: f in flows ==> LeastPlan(view, Visited(segments), f, f.maxPlanned)
    ensures forall f :: f in flows ==> FiguresAre(f, Visited(segments), segments)
  {
    for i := 0 to |segments|
      invariant forall f :: f in flows ==> LeastPlan(view, Visited(segments[..i]), f, f.maxPlanned)
      invariant forall f :: f in flows ==> FiguresAre(f, Visited(segments[..i]), segments[..i])
    {
      VisitSegment(segments, i, flows, view);
    }
    WholeOf(segments);
  }

  method VisitSegment(segments: seq<Segment>, i: nat, ghost flows: set<Flow>, ghost view: View)
    requires i < |segments| && Distinct(segments) && Carry(segments[i], flows)
    requires segments[i] in view && Sees(segments[i], view[segments[i]])
    requires forall f :: f in flows ==> LeastPlan(view, Visited(segments[..i]), f, f.maxPlanned)
    requires forall f :: f in flows ==> FiguresAre(f, Visited(segments[..i]), segments[..i])
    modifies {segments[i]}`fairShare, flows`planned, flows`maxPlanned, flows`computedLatency, flows`computedJitter,
             flows`computedPacketLoss
    ensures forall f :: f in flows ==> LeastPlan(view, Visited(segments[..i + 1]), f, f.maxPlanned)
    ensures forall f :: f in flows ==> FiguresAre(f, Visited(segments[..i + 1]), segments[..i + 1])
  {
    VisitedStep(segments, i);
    VisitOffers(segments[i], flows, view, Visited(segments[..i]));
    VisitFigures(segments[i], flows, Visited(segments[..i]), segments[..i]);
  }

  method VisitOffers(segment: Segment, ghost flows: set<Flow>, ghost view: View, ghost done: set<Segment>)
    requires Carry(segment, flows)
    requires segment in view && Sees(segment, view[segment])
    requires forall f :: f in flows ==> LeastPlan(view, done, f, f.maxPlanned)
    modifies segment`fairShare, flows`planned, flows`maxPlanned
    ensures forall f :: f in flows ==> LeastPlan(view, done + {segment}, f, f.maxPlanned)
  {
    ghost var ds := EvaluateSegment(segment);
    assert view[segment] == Crossing(segment.flows, ds);
    forall f | f in flows ensures LeastPlan(view, done + {segment}, f, f.maxPlanned) {
      OfferSeen(view, segment, f, segment.flows, ds);
      LeastPlanLowered(view, done, segment, f, old(f.maxPlanned), f.maxPlanned);
    }
  }

  method VisitFigures(segment: Segment, ghost flows: set<Flow>, ghost done: set<Segment>, ghost order: seq<Segment>)
    requires Carry(segment, flows)
    requires segment !in done
    requires forall f :: f in flows ==> FiguresAre(f, done, order)
    modifies flows`computedLatency, flows`computedJitter, flows`computedPacketLoss
    ensures forall f :: f in flows ==> FiguresAre(f, done + {segment}, order + [segment])
  {
    AddSegmentFigures(segment);
    assert (order + [segment])[..|order|] == order;
    forall f | f in flows ensures FiguresAre(f, done + {segment}, order + [segment]) {
      assert old(FiguresAre(f, done, order));
      CarriersAdd(done, segment, f);
    }
  }

  /** The figures of a flow are those of the segments visited. */
  ghost predicate FiguresAre(f: Flow, done: set<Segment>, order: seq<Segment>)
    reads f`computedLatency, f`computedJitter, f`computedPacketLoss, done`flows, order`flows
  {
    && f.computedLatency == SumOver(Carriers(done, f), LATENCY)
    && f.computedJitter == SumOver(Carriers(done, f), JITTER)
    && f.computedPacketLoss == LossAlong(order, f)
  }

  lemma CarriersAdd(done: set<Segment>, s: Segment, f: Flow)
    requires s !in done
    ensures f in s.flows ==> forall figure: Segment -> real ::
      SumOver(Carriers(done + {s}, f), figure) == SumOver(Carriers(done, f), figure) + figure(s)
    ensures f !in s.flows ==> Carriers(done + {s}, f) == Carriers(done, f)
  {
    if f in s.flows {
      assert Carriers(done + {s}, f) - {s} == Carriers(done, f);
      forall figure: Segment -> real
        ensures SumOver(Carriers(done + {s}, f), figure) == SumOver(Carriers(done, f), figure) + figure(s)
      {
        SumOverRemove(Carriers(done + {s}, f), figure, s);
      }
    } else {
      assert Carriers(done + {s}, f) == Carriers(done, f);
    }
  }

  method AddSegmentFigures(segment: Segment)
    requires Distinct(segment.flows)
    modifies segment.flows`computedLatency, segment.flows`computedJitter, segment.flows`computedPacketLoss
    ensures forall f :: f in segment.flows ==>
      && f.computedLatency == old(f.computedLatency) + segment.netChar.latency
      && f.computedJitter == old(f.computedJitter) + segment.netChar.jitter
      && f.computedPacketLoss == LossStep(old(f.computedPacketLoss), segment.netChar.packetLoss)
  {
    for i := 0 to |segment.flows|
      invariant forall k :: 0 <= k < i ==> var f := segment.flows[k];
        && f.computedLatency == old(f.computedLatency) + segment.netChar.latency
        && f.computedJitter == old(f.computedJitter) + segment.netChar.jitter
        && f.computedPacketLoss == LossStep(old(f.computedPacketLoss), segment.netChar.packetLoss)
      invariant forall k :: i <= k < |segment.flows| ==> var f := segment.flows[k];
        && f.computedLatency == old(f.computedLatency)
        && f.computedJitter == old(f.computedJitter)
        && f.computedPacketLoss == old(f.computedPacketLoss)
    {
      AddFigures(segment.flows[i], segment.netChar);
    }
  }

  method AddFigures(flow: Flow, netChar: NetChar)
    modifies flow`computedLatency, flow`computedJitter, flow`computedPacketLoss
    ensures flow.computedLatency == old(flow.computedLatency) + netChar.latency
    ensures flow.computedJitter == old(flow.computedJitter) + netChar.jitter
    ensures flow.computedPacketLoss == LossStep(old(flow.computedPacketLoss), netChar.packetLoss)
  {
    flow.computedLatency := flow.computedLatency + netChar.latency;
    flow.computedJitter := flow.computedJitter + netChar.jitter;
    if flow.computedPacketLoss == 0.0 {
      flow.computedPacketLoss := netChar.packetLoss;
    } else if netChar.packetLoss != 0.0 {
      flow.computedPacketLoss := flow.computedPacketLoss + flow.computedPacketLoss * (1.0 - netChar.packetLoss);
    }
  }
}
