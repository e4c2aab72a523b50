/** What the tick guarantees end to end: capacity, latency both ways, and updates that miss nothing. */
module NetCharDelivery {
  import opened Common
  import opened SegmentShares
  import opened SegmentConservation
  import opened SegmentPlans
  import opened SegmentAlgorithm
  import opened FlowRouting
  import opened ScenarioTables
  import opened NetCharAlgorithm

  // ----- Flows and segments agree

  /** The names, tables and paths of a scenario on which every flow is found on its own segments, once each. */
  ghost predicate WellNamed(scenario: string, elems: seq<NetElem>) {
    && DistinctNames(elems)
    && forall i :: 0 <= i < |elems| ==> ':' !in elems[i].name && ChainDistinct(scenario, elems[i])
  }

  lemma RowsAreAllPairs(elems: seq<NetElem>, pairs: seq<(nat, nat)>)
    requires Rows(elems, pairs, |elems|, 0)
    ensures AllPairs(elems, pairs)
  {
    forall i, j | 0 <= i < |elems| && 0 <= j < |elems| && i != j ensures (i, j) in pairs {
      assert Before(i, j, |elems|, 0);
    }
  }

  /** Every flow is listed exactly once on each segment of its path and nowhere else, and no other
      flow is listed. */
  ghost predicate OnceEach(routes: seq<Route>) {
    && NamesSeparate(routes)
    && (forall k :: 0 <= k < |routes| ==> Distinct(routes[k].hops))
    && (forall k, h :: 0 <= k < |routes| ==>
        Listed(RouteAll(routes), h, routes[k].flow) == if h in routes[k].hops then 1 else 0)
    && (forall n, h :: (forall k :: 0 <= k < |routes| ==> routes[k].flow != n) ==> Listed(RouteAll(routes), h, n) == 0)
  }

  /** On a well-named scenario flows and segments agree, once each. */
  lemma ScenarioIncidence(scenario: string, elems: seq<NetElem>, pairs: seq<(nat, nat)>)
    requires WellNamed(scenario, elems) && Rows(elems, pairs, |elems|, 0)
    ensures OnceEach(RoutesOf(PathsOf(scenario), elems, pairs))
  {
    var routes := RoutesOf(PathsOf(scenario), elems, pairs);
    RowsAreAllPairs(elems, pairs);
    PlainNamesSeparate(PathsOf(scenario), elems, pairs);
    forall k, h | 0 <= k < |routes|
      ensures Listed(RouteAll(routes), h, routes[k].flow) == if h in routes[k].hops then 1 else 0
    {
      AloneListed(routes, k, h);
      SegmentsOnce(scenario, elems[pairs[k].0], elems[pairs[k].1], h);
    }
    forall k | 0 <= k < |routes| ensures Distinct(routes[k].hops) {
      forall h ensures multiset(routes[k].hops)[h] <= 1 {
        SegmentsOnce(scenario, elems[pairs[k].0], elems[pairs[k].1], h);
      }
      OnceIsDistinct(routes[k].hops);
    }
    forall n, h | forall k :: 0 <= k < |routes| ==> routes[k].flow != n ensures Listed(RouteAll(routes), h, n) == 0 {
      UnroutedNotListed(routes, n, h);
    }
  }

  lemma TwiceCounted<T>(row: seq<T>, i: nat, j: nat)
    requires i < j < |row| && row[i] == row[j]
    ensures multiset(row)[row[j]] >= 2
  {
    assert row == row[..j] + [row[j]] + row[j + 1..];
    assert row[..j][i] == row[j];
    assert multiset(row)[row[j]] >= multiset(row[..j])[row[j]] + 1;
  }

  /** A row that lists nothing twice has no repetition. */
  lemma OnceIsDistinct<T(!new)>(row: seq<T>)
    requires forall n :: multiset(row)[n] <= 1
    ensures Distinct(row)
  {
    forall i, j | 0 <= i < j < |row| ensures row[i] != row[j] {
      if row[i] == row[j] { TwiceCounted(row, i, j); }
    }
  }

  lemma RowOnce(routes: seq<Route>, h: Hop)
    requires OnceEach(routes)
    ensures Distinct(Carried(RouteAll(routes), h))
  {
    var t := RouteAll(routes);
    forall n ensures multiset(Carried(t, h))[n] <= 1 {
      assert multiset(Carried(t, h))[n] == Listed(t, h, n);
    }
    OnceIsDistinct(Carried(t, h));
  }

  lemma DistinctRow(row: seq<string>, s: Segment)
    requires Lists(row, s.flows) && Distinct(row)
    ensures Distinct(s.flows)
  {
    forall i, j | 0 <= i < j < |s.flows| ensures s.flows[i] != s.flows[j] {
      assert row[i] != row[j];
    }
  }

  /** After routing, no segment lists a flow twice. */
  lemma RoutedFlowsOnce(a: Algorithm, routes: seq<Route>, plan: Hop -> Blueprint)
    requires a.Routed(routes, plan) && OnceEach(routes)
    ensures a.FlowsOnce()
  {
    forall s | s in a.segmentSet ensures Distinct(s.flows) {
      RowOnce(routes, s.hop);
      DistinctRow(a.table[s.hop], s);
    }
  }

  /** Each flow of a well-named scenario has the limit of its two ends and the distribution of its source,
      and is marked as rerouted exactly if its crossings are not those of its path before. */
  lemma FlowsStand(a: Algorithm, scenario: string, elems: seq<NetElem>, pairs: seq<(nat, nat)>,
                   was: map<string, Standing>, k: nat)
    requires WellNamed(scenario, elems) && Rows(elems, pairs, |elems|, 0) && k < |pairs|
    requires a.Populated(was, RoutesOf(PathsOf(scenario), elems, pairs))
    ensures var name := NameOf(elems, pairs[k]);
      var s, d := elems[pairs[k].0], elems[pairs[k].1];
      && name in a.flowMap && a.flowMap[name].demand.configured == EndsLimit(s, d)
      && a.flowMap[name].distribution == s.distribution
      && (a.flowMap[name].demand.updateRequired <==> !Through(StandingIn(was, name).path, PathOf(scenario, s, d)))
  {
    var routes := RoutesOf(PathsOf(scenario), elems, pairs);
    RowsAreAllPairs(elems, pairs);
    PlainNamesSeparate(PathsOf(scenario), elems, pairs);
    assert LastOfName(routes, k) && OnlyOfName(routes, k);
    assert StandsAs(a.Standings(), was, routes, k);
  }

  // ----- Capacity after the merge

  ghost function MaxPlans(list: seq<Flow>): (ps: seq<Plan>)
    reads list`maxPlanned
    ensures |ps| == |list| && forall k :: 0 <= k < |list| ==> ps[k] == list[k].maxPlanned
  {
    if list == [] then [] else MaxPlans(list[..|list| - 1]) + [list[|list| - 1].maxPlanned]
  }

  lemma {:induction false} ActiveSumMonotone(c: Settings, es: seq<Demand>, p: seq<Plan>, q: seq<Plan>, n: nat)
    requires |p| == |q| == |es| && n <= |es|
    requires forall k :: 0 <= k < |es| ==> p[k].throughput <= q[k].throughput
    ensures ActiveSum(c, es, p, n) <= ActiveSum(c, es, q, n)
  {
    if n > 0 { ActiveSumMonotone(c, es, p, q, n - 1); }
  }

  /** On a segment the re-evaluated flows end with at most what it planned them. */
  lemma MergedBelow(v: View, segments: set<Segment>, s: Segment)
    requires s in segments && s in v && |v[s].flows| == |v[s].demands| && Distinct(v[s].flows)
    requires forall f :: f in v[s].flows ==> LeastOffer(v, segments, f, f.maxPlanned.throughput)
    ensures var c, ds := s.settings, v[s].demands;
      var es := Evaluated(FairShare(c, ds), ds);
      ActiveSum(c, es, MaxPlans(Picked(FairShare(c, ds), ds, v[s].flows)), |es|) + Kept(c, FairShare(c, ds), ds)
      <= Load(c, ds, Blank(|es|))
  {
    var ds := v[s].demands;
    var fair := FairShare(s.settings, ds);
    var list := Picked(fair, ds, v[s].flows);
    var es := Evaluated(fair, ds);
    var plans := Replan(s.settings, fair, es, Blank(|es|), Unused(s.settings, fair, ds));
    PickedDistinct(fair, ds, v[s].flows);
    forall k | 0 <= k < |es| ensures MaxPlans(list)[k].throughput <= plans[k].throughput {
      OfferedRates(s.settings, ds, v[s].flows, list, Blank(|es|), list[k]);
      assert OfferOf(v, s, list[k]) == Some(plans[k].throughput);
    }
    ActiveSumMonotone(s.settings, es, MaxPlans(list), plans, |es|);
  }

  /** After a tick, on every segment at once, the rates the active re-evaluated flows ended with
      fit in the segment: merging the plans of several segments gives no capacity out twice. */
  lemma MergedPlansFit(v: View, segments: set<Segment>, s: Segment)
    requires s in segments && s in v && |v[s].flows| == |v[s].demands| && Distinct(v[s].flows)
    requires forall f :: f in v[s].flows ==> LeastOffer(v, segments, f, f.maxPlanned.throughput)
    requires s.settings.throughput >= 0.0
    requires forall d :: d in v[s].demands ==> d.allocation >= 0.0
    requires var fair := FairShare(s.settings, v[s].demands); var es := Evaluated(fair, v[s].demands);
      Count(s.settings, fair, es, First, |es|) < |es| ==> Orderly(s.settings, fair, es)
    ensures var fair := FairShare(s.settings, v[s].demands);
      var list := Picked(fair, v[s].demands, v[s].flows);
      var es := Evaluated(fair, v[s].demands);
      ActiveSum(s.settings, es, MaxPlans(list), |es|) <= s.settings.throughput
  {
    var ds := v[s].demands;
    MergedBelow(v, segments, s);
    Conservation(s.settings, ds, Blank(|Evaluated(FairShare(s.settings, ds), ds)|));
  }

  /** With what the other active flows keep they fit wherever the plans of the segment itself do, and when
      that is so is told exactly. */
  lemma MergedSegmentFits(v: View, segments: set<Segment>, s: Segment)
    requires s in segments && s in v && |v[s].flows| == |v[s].demands| && Distinct(v[s].flows)
    requires forall f :: f in v[s].flows ==> LeastOffer(v, segments, f, f.maxPlanned.throughput)
    requires s.settings.throughput >= 0.0 && OrderlyDemands(s.settings, v[s].demands)
    requires var c, ds := s.settings, v[s].demands;
      && var fair := FairShare(c, ds);
      && var es := Evaluated(fair, ds);
      if Shared(c, fair, es, Blank(|es|), Unused(c, fair, ds)).unused >= 1.0 then
        KeptAbove(c, fair, ds) <= LimitedBelow(c, fair, ds)
      else
        Count(c, fair, es, First, |es|) < |es| || StepSum(c, fair, es, First, |es|) + Kept(c, fair, ds) <= c.throughput
    ensures var c, ds := s.settings, v[s].demands;
      var fair := FairShare(c, ds);
      var es := Evaluated(fair, ds);
      ActiveSum(c, es, MaxPlans(Picked(fair, ds, v[s].flows)), |es|) + Kept(c, fair, ds) <= c.throughput
  {
    var ds := v[s].demands;
    MergedBelow(v, segments, s);
    WholeSegmentExactly(s.settings, ds, Blank(|Evaluated(FairShare(s.settings, ds), ds)|));
  }

  // ----- Whole plans

  /** A segment plans its k-th evaluated flow as its kind says, from what is not kept; if a unit or more is left
      over then, active flows are planned their fair share instead. */
  ghost predicate MadeFor(c: Settings, ds: seq<Demand>, k: nat, p: Plan) {
    var fair := FairShare(c, ds);
    var es := Evaluated(fair, ds);
    var unused := c.throughput - Kept(c, fair, ds);
    k < |es|
    && if Shared(c, fair, es, Blank(|es|), unused).unused >= 1.0 && Active(c, es[k]) then FairlyLimited(fair, es[k], p)
       else PlannedAs(c, fair, es, unused, k, p)
  }

  /** The plan is one that the segment makes for the flow. */
  ghost predicate MadeBy(v: View, s: Segment, f: Flow, p: Plan)
    requires s in v && |v[s].demands| == |v[s].flows|
  {
    var list := Picked(FairShare(s.settings, v[s].demands), v[s].demands, v[s].flows);
    f in v[s].flows && f in list && MadeFor(s.settings, v[s].demands, IndexOf(list, f), p)
  }

  lemma PlanOfIsMade(v: View, s: Segment, f: Flow, p: Plan)
    requires s in v && |v[s].demands| == |v[s].flows| && OrderlyDemands(s.settings, v[s].demands)
    requires PlanOf(v, s, f) == Some(p)
    ensures MadeBy(v, s, f, p)
  {
    var c, ds := s.settings, v[s].demands;
    var fair := FairShare(c, ds);
    var es := Evaluated(fair, ds);
    var k := IndexOf(Picked(fair, ds, v[s].flows), f);
    UnusedIsWithoutKept(c, fair, ds);
    PlansExactly(c, fair, es, Blank(|es|), Unused(c, fair, ds), k);
    ResidualExactly(c, fair, es, Blank(|es|), Unused(c, fair, ds), k);
  }

  /** Where the flows of all segments are orderly, the plan a flow ends a tick with is made by one of its
      segments, bounds and all, unless none plans it. */
  lemma PlanIsMade(v: View, segments: set<Segment>, f: Flow, p: Plan)
    requires forall s :: s in segments ==> s in v && |v[s].demands| == |v[s].flows|
    requires LeastPlan(v, segments, f, p) && AllOrderly(v, segments)
    ensures p == MAX_PLAN || exists s :: s in segments && MadeBy(v, s, f, p)
  {
    if p != MAX_PLAN {
      var s :| s in segments && PlanOf(v, s, f) == Some(p);
      PlanOfIsMade(v, s, f, p);
    }
  }

  /** The plan for another rate was taken over. */
  ghost predicate TakenOver(p: Plan, d: Demand) {
    p.throughput != MAX_THROUGHPUT && p.throughput >= 0.0 && p.throughput != d.allocation
  }

  /** On the next tick a flow keeps its allocation, with no segment planning it, exactly if it is measured below
      the fair share and within the bounds of the plan that was taken over last. The bounds of a plan for the
      rate already allotted are not taken over. */
  lemma NextTick(f: Flow, d: Demand, measured: map<string, real>, fair: real)
    ensures var next := Measured(AllottedNext(f, d), f.name, measured);
      var rate := if f.name in measured then measured[f.name] else d.current;
      && (SegmentPlans.Settled(fair, next) <==>
          && !d.updateRequired && rate < fair
          && if TakenOver(f.maxPlanned, d) then f.maxPlanned.lower <= rate <= f.maxPlanned.upper
             else d.lowerBound <= rate <= d.upperBound)
      && next.allocation == (if TakenOver(f.maxPlanned, d) then f.maxPlanned.throughput else d.allocation)
      && next.configured == d.configured
  {
  }

  // ----- Latency, both ways

  lemma RowLists(row: seq<string>, s: Segment, flowMap: map<string, Flow>, n: string)
    requires Lists(row, s.flows) && n in flowMap
    requires forall f :: f in s.flows ==> f.name in flowMap && flowMap[f.name] == f
    requires flowMap[n].name == n
    ensures flowMap[n] in s.flows <==> multiset(row)[n] > 0
  {
    assert n in row <==> multiset(row)[n] > 0;
    if n in row {
      var k :| 0 <= k < |row| && row[k] == n;
      assert s.flows[k] in s.flows;
    }
    if flowMap[n] in s.flows {
      var k :| 0 <= k < |s.flows| && s.flows[k] == flowMap[n];
      assert row[k] == n;
    }
  }

  lemma RoutedIsThere(a: Algorithm, routes: seq<Route>, plan: Hop -> Blueprint, k: nat)
    requires a.Routed(routes, plan) && NamesSeparate(routes) && k < |routes|
    ensures routes[k].flow in a.flowMap
  {
    assert LastOfName(routes, k);
    assert routes[k].flow in a.PathMap();
  }

  /** A segment carries a routed flow exactly when it is on the flow's path. */
  lemma CarriersAreOnPath(a: Algorithm, routes: seq<Route>, plan: Hop -> Blueprint, k: nat, s: Segment)
    requires a.Routed(routes, plan) && OnceEach(routes) && k < |routes| && s in a.segmentSet
    ensures routes[k].flow in a.flowMap && (a.flowMap[routes[k].flow] in s.flows <==> s.hop in routes[k].hops)
  {
    var n := routes[k].flow;
    RoutedIsThere(a, routes, plan, k);
    assert multiset(a.table[s.hop])[n] == Listed(RouteAll(routes), s.hop, n);
    RowLists(a.table[s.hop], s, a.flowMap, n);
  }

  /** Every crossing of a routed path has its segment. */
  lemma PathHasSegments(a: Algorithm, routes: seq<Route>, plan: Hop -> Blueprint, k: nat, h: Hop)
    requires a.Routed(routes, plan) && OnceEach(routes) && k < |routes| && h in routes[k].hops
    ensures h in a.segmentMap
  {
    assert Listed(RouteAll(routes), h, routes[k].flow) == 1;
    assert Carried(RouteAll(routes), h) != [];
  }

  /** The segments of some crossings. */
  ghost function SegmentsAt(m: map<Hop, Segment>, hops: seq<Hop>): set<Segment>
    requires forall h :: h in hops ==> h in m
  {
    set h | h in hops :: m[h]
  }

  /** A figure that segments take from their element adds up over the segments of a path to the
      sum over the path. */
  lemma {:induction false} SumAlongPath(m: map<Hop, Segment>, hops: seq<Hop>,
                                        onSegment: Segment -> real, onElement: string -> real)
    requires forall h :: h in hops ==> h in m && m[h].hop == h && onSegment(m[h]) == onElement(h.elem)
    requires Distinct(hops)
    ensures SumOver(SegmentsAt(m, hops), onSegment) == PathSum(onElement, hops)
  {
    if hops == [] {
      assert SegmentsAt(m, hops) == {};
    } else {
      var rest, h := hops[..|hops| - 1], hops[|hops| - 1];
      LastSegment(m, hops);
      SumAlongPath(m, rest, onSegment, onElement);
      SumOverRemove(SegmentsAt(m, hops), onSegment, m[h]);
    }
  }

  lemma LastSegment(m: map<Hop, Segment>, hops: seq<Hop>)
    requires hops != [] && Distinct(hops) && forall h :: h in hops ==> h in m && m[h].hop == h
    ensures var rest, h := hops[..|hops| - 1], hops[|hops| - 1];
      && (forall g :: g in rest ==> g in hops) && h in hops
      && m[h] in SegmentsAt(m, hops)
      && SegmentsAt(m, hops) - {m[h]} == SegmentsAt(m, rest)
  {
    var rest, h := hops[..|hops| - 1], hops[|hops| - 1];
    assert hops == rest + [h];
    assert SegmentsAt(m, hops) == SegmentsAt(m, rest) + {m[h]};
  }

  function LatencyOf(chars: CharTable): string -> real {
    e => CharsOf(chars, e).latency
  }

  function JitterOf(chars: CharTable): string -> real {
    e => CharsOf(chars, e).jitter
  }

  lemma CarriersAreSegmentsAt(a: Algorithm, routes: seq<Route>, plan: Hop -> Blueprint, k: nat)
    requires a.Routed(routes, plan) && OnceEach(routes) && k < |routes|
    ensures routes[k].flow in a.flowMap
    ensures forall h :: h in routes[k].hops ==> h in a.segmentMap
    ensures Carriers(a.segmentSet, a.flowMap[routes[k].flow]) == SegmentsAt(a.segmentMap, routes[k].hops)
  {
    var hops := routes[k].hops;
    RoutedIsThere(a, routes, plan, k);
    forall h | h in hops ensures h in a.segmentMap { PathHasSegments(a, routes, plan, k, h); }
    var f := a.flowMap[routes[k].flow];
    forall s | s in a.segmentSet
      ensures s in Carriers(a.segmentSet, f) <==> s in SegmentsAt(a.segmentMap, hops)
    {
      CarriersAreOnPath(a, routes, plan, k, s);
    }
  }

  /** After a tick the latency and jitter of a routed flow are the sums along its own path. */
  lemma FiguresAlongPath(a: Algorithm, routes: seq<Route>, chars: CharTable, k: nat, order: seq<Segment>)
    requires a.Routed(routes, BlueprintsOf(a.tuning, chars)) && OnceEach(routes) && k < |routes|
    requires routes[k].flow in a.flowMap && FiguresAre(a.flowMap[routes[k].flow], a.segmentSet, order)
    ensures a.flowMap[routes[k].flow].computedLatency == PathSum(LatencyOf(chars), routes[k].hops)
    ensures a.flowMap[routes[k].flow].computedJitter == PathSum(JitterOf(chars), routes[k].hops)
  {
    var plan, hops := BlueprintsOf(a.tuning, chars), routes[k].hops;
    CarriersAreSegmentsAt(a, routes, plan, k);
    forall h | h in hops
      ensures a.segmentMap[h].hop == h
      ensures LATENCY(a.segmentMap[h]) == LatencyOf(chars)(h.elem) && JITTER(a.segmentMap[h]) == JitterOf(chars)(h.elem)
    {
      assert a.segmentMap[h] in a.segmentSet;
    }
    SumAlongPath(a.segmentMap, hops, LATENCY, LatencyOf(chars));
    SumAlongPath(a.segmentMap, hops, JITTER, JitterOf(chars));
  }

  /** After a tick the two directions between any two processes have the same latency and jitter. */
  lemma BothWaysAlike(a: Algorithm, scenario: string, elems: seq<NetElem>, chars: CharTable, pairs: seq<(nat, nat)>,
                      k: nat, m: nat, order: seq<Segment>)
    requires WellNamed(scenario, elems) && Rows(elems, pairs, |elems|, 0)
    requires a.Routed(RoutesOf(PathsOf(scenario), elems, pairs), BlueprintsOf(a.tuning, chars))
    requires k < |pairs| && m < |pairs| && pairs[m] == (pairs[k].1, pairs[k].0)
    requires forall f :: f in a.flowSet ==> FiguresAre(f, a.segmentSet, order)
    ensures var there, back := NameOf(elems, pairs[k]), NameOf(elems, pairs[m]);
      && there in a.flowMap && back in a.flowMap
      && a.flowMap[there].computedLatency == a.flowMap[back].computedLatency
      && a.flowMap[there].computedJitter == a.flowMap[back].computedJitter
  {
    var routes := RoutesOf(PathsOf(scenario), elems, pairs);
    ScenarioIncidence(scenario, elems, pairs);
    RoutedIsThere(a, routes, BlueprintsOf(a.tuning, chars), k);
    RoutedIsThere(a, routes, BlueprintsOf(a.tuning, chars), m);
    FiguresAlongPath(a, routes, chars, k, order);
    FiguresAlongPath(a, routes, chars, m, order);
    var s, d := elems[pairs[k].0], elems[pairs[k].1];
    RoundTripSumsEqual(LatencyOf(chars), scenario, s, d);
    RoundTripSumsEqual(JitterOf(chars), scenario, s, d);
  }
}
