/** The segment algorithm: flows, segments and the passes that share capacity on every tick. */
module SegmentAlgorithm {
  import opened Common
  import opened SegmentShares
  import opened SegmentScratch
  import opened FlowRouting
  import SegmentConservation
  import SegmentPlans

  datatype NetChar = NetChar(latency: real, jitter: real, packetLoss: real, throughput: real, distribution: string)

  const NO_NETCHAR := NetChar(0.0, 0.0, 0.0, 0.0, "")
  const NO_PLAN := Plan(0.0, 0.0, 0.0)
  const MAX_PLAN := Plan(MAX_THROUGHPUT, MAX_THROUGHPUT, MAX_THROUGHPUT)
  const NO_DEMAND := Demand(0.0, 0.0, 0.0, 0.0, 0.0, false)

  /** A directed exchange between two processes. The field demand groups what segments read. */
  class Flow {
    const name: string
    const src: string
    const dst: string
    var demand: Demand
    var distribution: string
    var planned: Plan
    var maxPlanned: Plan
    var computedLatency: real
    var computedJitter: real
    var computedPacketLoss: real
    var applied: NetChar
    var path: seq<Segment>

    constructor (name: string, src: string, dst: string)
      ensures this.name == name && this.src == src && this.dst == dst
      ensures applied == NO_NETCHAR && demand == NO_DEMAND && path == []
    {
      this.name, this.src, this.dst := name, src, dst;
      demand, distribution, planned, maxPlanned := NO_DEMAND, "", NO_PLAN, NO_PLAN;
      computedLatency, computedJitter, computedPacketLoss := 0.0, 0.0, 0.0;
      applied, path := NO_NETCHAR, [];
    }
  }

  /** One direction of a network element. The segment map is keyed by the crossing, which the
      segment name determines (FlowRouting.SegmentNameInjective). */
  class Segment {
    const hop: Hop
    const settings: Settings
    const netChar: NetChar
    var fairShare: real
    var flows: seq<Flow>

    constructor (h: Hop, settings: Settings, netChar: NetChar)
      ensures hop == h && this.settings == settings && this.netChar == netChar && flows == []
    {
      hop, this.settings, this.netChar := h, settings, netChar;
      fairShare, flows := 0.0, [];
    }
  }

  ghost predicate Distinct<T>(s: seq<T>) {
    forall i, j :: 0 <= i < j < |s| ==> s[i] != s[j]
  }

  ghost function Demands(fs: seq<Flow>): (ds: seq<Demand>)
    reads fs`demand
    ensures |ds| == |fs| && forall i :: 0 <= i < |fs| ==> ds[i] == fs[i].demand
  {
    if fs == [] then [] else Demands(fs[..|fs| - 1]) + [fs[|fs| - 1].demand]
  }

  ghost function Plans(fs: seq<Flow>): (ps: seq<Plan>)
    reads fs`planned
    ensures |ps| == |fs| && forall i :: 0 <= i < |fs| ==> ps[i] == fs[i].planned
  {
    if fs == [] then [] else Plans(fs[..|fs| - 1]) + [fs[|fs| - 1].planned]
  }

  method UpdateMaxFairShareBwPerFlow(segment: Segment)
    modifies segment`fairShare
    ensures segment.fairShare == FairShare(segment.settings, Demands(segment.flows))
  {
    ghost var ds := Demands(segment.flows);
    var n := CountActive(segment);
    var fairShare := if n >= 1 then segment.settings.throughput / n as real else MAX_THROUGHPUT;
    FairShareIs(segment.settings, ds, n, fairShare);
    SetFairShare(segment, fairShare);
  }

  method SetFairShare(segment: Segment, fairShare: real)
    modifies segment`fairShare
    ensures segment.fairShare == fairShare && Demands(segment.flows) == old(Demands(segment.flows))
  {
    segment.fairShare := fairShare;
  }

  lemma FairShareIs(c: Settings, ds: seq<Demand>, n: nat, fairShare: real)
    requires n == ActiveCount(c, ds) && fairShare == if n >= 1 then c.throughput / n as real else MAX_THROUGHPUT
    ensures fairShare == FairShare(c, ds)
  {
  }

  method CountActive(segment: Segment) returns (n: nat)
    ensures n == ActiveCount(segment.settings, Demands(segment.flows))
  {
    n := 0;
    for i := 0 to |segment.flows|
      invariant n == ActiveCount(segment.settings, Demands(segment.flows[..i]))
    {
      if segment.flows[i].demand.current >= segment.settings.minActivityThreshold { n := n + 1; }
      assert segment.flows[..i + 1][..i] == segment.flows[..i];
      assert Demands(segment.flows[..i + 1])[..i] == Demands(segment.flows[..i]);
    }
    assert segment.flows[..|segment.flows|] == segment.flows;
  }

  /** The flows to plan anew, exactly those that are not settled, and the capacity that others do not keep. */
  method NeedToReevaluate(segment: Segment) returns (unusedBw: real, list: seq<Flow>)
    ensures list == Picked(segment.fairShare, Demands(segment.flows), segment.flows)
    ensures unusedBw == Unused(segment.settings, segment.fairShare, Demands(segment.flows))
    ensures unusedBw == segment.settings.throughput
                        - SegmentPlans.Kept(segment.settings, segment.fairShare, Demands(segment.flows))
    ensures forall f :: f in segment.flows ==> (f in list <==> !SegmentPlans.Settled(segment.fairShare, f.demand))
  {
    unusedBw, list := ListToReevaluate(segment);
    ghost var ds := Demands(segment.flows);
    SegmentPlans.UnusedIsWithoutKept(segment.settings, segment.fairShare, ds);
    PickedExactly(segment.fairShare, ds, segment.flows);
  }

  lemma {:induction false} PickedExactly(fair: real, ds: seq<Demand>, fs: seq<Flow>)
    requires DemandsAre(fs, ds)
    ensures forall f :: f in fs ==> (f in Picked(fair, ds, fs) <==> !SegmentPlans.Settled(fair, f.demand))
  {
    if ds != [] {
      var n := |ds| - 1;
      PickedExactly(fair, ds[..n], fs[..n]);
      assert forall f :: f in fs <==> f in fs[..n] || f == fs[n];
    }
  }

  method ListToReevaluate(segment: Segment) returns (unusedBw: real, list: seq<Flow>)
    ensures list == Picked(segment.fairShare, Demands(segment.flows), segment.flows)
    ensures unusedBw == Unused(segment.settings, segment.fairShare, Demands(segment.flows))
  {
    unusedBw, list := segment.settings.throughput, [];
    for i := 0 to |segment.flows|
      invariant list == Picked(segment.fairShare, Demands(segment.flows[..i]), segment.flows[..i])
      invariant unusedBw == Unused(segment.settings, segment.fairShare, Demands(segment.flows[..i]))
    {
      var flow := segment.flows[i];
      if flow.demand.current < flow.demand.lowerBound || flow.demand.current > flow.demand.upperBound
         || flow.demand.current >= segment.fairShare || flow.demand.updateRequired
      {
        list := list + [flow];
      } else if flow.demand.current >= segment.settings.minActivityThreshold {
        unusedBw := unusedBw - flow.demand.allocation;
      }
      assert segment.flows[..i + 1][..i] == segment.flows[..i];
      assert Demands(segment.flows[..i + 1])[..i] == Demands(segment.flows[..i]);
    }
    assert segment.flows[..|segment.flows|] == segment.flows;
  }

  ghost predicate DemandsAre(list: seq<Flow>, es: seq<Demand>)
    reads list`demand
  {
    |es| == |list| && forall k :: 0 <= k < |list| ==> list[k].demand == es[k]
  }

  ghost predicate PlansAre(list: seq<Flow>, ps: seq<Plan>)
    reads list`planned
  {
    |ps| == |list| && forall k :: 0 <= k < |list| ==> list[k].planned == ps[k]
  }

  /** Shares the capacity of a segment among the listed flows and lowers their plans accordingly. */
  method RecalculateSegmentBw(segment: Segment, list: seq<Flow>, unusedBw: real, ghost es: seq<Demand>,
                              ghost was: seq<Plan>)
    requires Distinct(list) && DemandsAre(list, es) && PlansAre(list, was)
    modifies list`planned, list`maxPlanned
    ensures PlansAre(list, Replan(segment.settings, segment.fairShare, es, was, unusedBw))
    ensures forall k :: 0 <= k < |list| ==> list[k].maxPlanned == LoweredPlan(old(list[k].maxPlanned), Some(list[k].planned))
  {
    ghost var c, fair := segment.settings, segment.fairShare;
    ghost var r := Category1(c, fair, es, Round(was, |list|, unusedBw), |list|);
    var unused, left := Category1Pass(segment, list, unusedBw, es, was);
    if left > 0 {
      unused, left, r := LaterPasses(segment, list, unused, left, es, r);
    }
    ghost var plans := r.plans;
    if unused >= 1.0 {
      ResidualPass(segment, list, es, r.plans);
      plans := Residual(c, fair, es, r.plans, |es|);
    }
    assert plans == Replan(c, fair, es, was, unusedBw);
    LowerPass(list);
  }

  method LaterPasses(segment: Segment, list: seq<Flow>, unusedBw: real, count: int, ghost es: seq<Demand>, ghost r: Round)
    returns (unused: real, left: int, ghost r': Round)
    requires Distinct(list) && DemandsAre(list, es) && PlansAre(list, r.plans)
    requires count == r.left > 0 && unusedBw == r.unused
    modifies list`planned
    ensures r' == Categories23(segment.settings, segment.fairShare, es, r)
    ensures PlansAre(list, r'.plans) && left == r'.left && unused == r'.unused
  {
    r' := Category2(segment.settings, segment.fairShare, es, r, |es|);
    unused, left := Category2Pass(segment, list, unusedBw, count, es, r);
    if left > 0 {
      ghost var extra := Extra(segment.fairShare, r');
      unused := Category3Pass(segment, list, unused, left, es, r');
      r' := Category3(segment.settings, segment.fairShare, es, r', extra, |es|);
    }
  }

  method Category1Pass(segment: Segment, list: seq<Flow>, unusedBw: real, ghost es: seq<Demand>, ghost was: seq<Plan>)
    returns (unused: real, left: int)
    requires Distinct(list) && DemandsAre(list, es) && PlansAre(list, was)
    modifies list`planned
    ensures var r := Category1(segment.settings, segment.fairShare, es, Round(was, |list|, unusedBw), |list|);
      PlansAre(list, r.plans) && left == r.left && unused == r.unused
  {
    unused, left := unusedBw, |list|;
    for i := 0 to |list|
      invariant var r := Category1(segment.settings, segment.fairShare, es, Round(was, |list|, unusedBw), i);
        PlansAre(list, r.plans) && left == r.left && unused == r.unused
    {
      var flow := list[i];
      if flow.demand.current + segment.settings.incrementalStep > segment.fairShare {
        flow.planned := flow.planned.(throughput := segment.fairShare);
      } else {
        if flow.demand.current <= segment.settings.minActivityThreshold {
          flow.planned := Plan(segment.settings.maxBwPerInactiveFlow, 0.0, segment.settings.inactivityIncrementalStep);
        } else {
          flow.planned := Stepped(segment.settings, flow.demand);
        }
        left := left - 1;
        if flow.planned.throughput != segment.settings.maxBwPerInactiveFlow {
          unused := unused - flow.planned.throughput;
        }
      }
    }
  }

  method Category2Pass(segment: Segment, list: seq<Flow>, unusedBw: real, count: int, ghost es: seq<Demand>,
                       ghost r: Round)
    returns (unused: real, left: int)
    requires Distinct(list) && DemandsAre(list, es) && PlansAre(list, r.plans) && count == r.left && unusedBw == r.unused
    modifies list`planned
    ensures var q := Category2(segment.settings, segment.fairShare, es, r, |list|);
      PlansAre(list, q.plans) && left == q.left && unused == q.unused
  {
    unused, left := unusedBw, count;
    for i := 0 to |list|
      invariant var q := Category2(segment.settings, segment.fairShare, es, r, i);
        PlansAre(list, q.plans) && left == q.left && unused == q.unused
    {
      var flow := list[i];
      if flow.planned.throughput == segment.fairShare && flow.demand.current < segment.fairShare {
        left := left - 1;
        if left == 0 {
          var rate := Min(unused, flow.demand.configured);
          flow.planned := Banded(segment.settings, rate, rate);
        } else {
          flow.planned := Stepped(segment.settings, flow.demand);
        }
        unused := unused - flow.planned.throughput;
      }
    }
  }

  method Category3Pass(segment: Segment, list: seq<Flow>, unusedBw: real, left: int, ghost es: seq<Demand>,
                       ghost r: Round)
    returns (unused: real)
    requires Distinct(list) && DemandsAre(list, es) && PlansAre(list, r.plans) && left == r.left > 0 && unusedBw == r.unused
    modifies list`planned
    ensures var q := Category3(segment.settings, segment.fairShare, es, r, Extra(segment.fairShare, r), |list|);
      PlansAre(list, q.plans) && left == q.left && unused == q.unused
  {
    unused := unusedBw;
    var extra := Extra(segment.fairShare, Round([], left, unused));
    assert extra == Extra(segment.fairShare, r);
    for i := 0 to |list|
      invariant var q := Category3(segment.settings, segment.fairShare, es, r, extra, i);
        PlansAre(list, q.plans) && left == q.left && unused == q.unused
    {
      var flow := list[i];
      if flow.planned.throughput == segment.fairShare && flow.demand.current >= segment.fairShare {
        flow.planned := ThirdPlan(segment.settings, segment.fairShare, flow.demand, extra);
        unused := unused - flow.planned.throughput;
      }
    }
  }

  method ResidualPass(segment: Segment, list: seq<Flow>, ghost es: seq<Demand>, ghost was: seq<Plan>)
    requires Distinct(list) && DemandsAre(list, es) && PlansAre(list, was)
    modifies list`planned
    ensures PlansAre(list, Residual(segment.settings, segment.fairShare, es, was, |list|))
  {
    for i := 0 to |list|
      invariant PlansAre(list, Residual(segment.settings, segment.fairShare, es, was, i))
    {
      var flow := list[i];
      if flow.demand.current > segment.settings.minActivityThreshold {
        flow.planned := Plan(Min(segment.fairShare, flow.demand.configured), 0.0, 0.0);
      }
    }
  }

  method LowerPass(list: seq<Flow>)
    requires Distinct(list)
    modifies list`maxPlanned
    ensures forall k :: 0 <= k < |list| ==> list[k].maxPlanned == LoweredPlan(old(list[k].maxPlanned), Some(list[k].planned))
  {
    for i := 0 to |list|
      invariant forall k :: 0 <= k < i ==> list[k].maxPlanned == LoweredPlan(old(list[k].maxPlanned), Some(list[k].planned))
      invariant forall k :: i <= k < |list| ==> list[k].maxPlanned == old(list[k].maxPlanned)
    {
      if list[i].planned.throughput < list[i].maxPlanned.throughput {
        list[i].maxPlanned := list[i].planned;
      }
    }
  }

  // ----- One segment

  /** The plan held after a segment has made its offer: the lower of two, on a tie the one held already. */
  function LoweredPlan(held: Plan, offer: Option<Plan>): Plan {
    if offer.Some? && offer.value.throughput < held.throughput then offer.value else held
  }

  /** The flows that a segment evaluates are orderly. */
  ghost predicate OrderlyDemands(c: Settings, ds: seq<Demand>) {
    SegmentConservation.Orderly(c, FairShare(c, ds), Evaluated(FairShare(c, ds), ds))
  }

  /** The rate held after a segment has made its offer. */
  function Lowered(held: real, offer: Option<real>): real {
    if offer.Some? && offer.value < held then offer.value else held
  }

  lemma {:induction false} PickedDistinct<T>(fair: real, ds: seq<Demand>, fs: seq<T>)
    requires |ds| == |fs| && Distinct(fs)
    ensures Distinct(Picked(fair, ds, fs))
  {
    if ds != [] {
      var n := |ds| - 1;
      PickedDistinct(fair, ds[..n], fs[..n]);
      assert fs[n] !in fs[..n];
    }
  }

  /** What is picked is in the order of the list. */
  lemma {:induction false} PickedInOrder(fair: real, ds: seq<Demand>, fs: seq<Flow>, i: nat, j: nat)
    requires DemandsAre(fs, ds) && Distinct(fs) && i < j < |fs|
    requires !SegmentPlans.Settled(fair, ds[i]) && !SegmentPlans.Settled(fair, ds[j])
    ensures var list := Picked(fair, ds, fs);
      fs[i] in list && fs[j] in list && IndexOf(list, fs[i]) < IndexOf(list, fs[j])
  {
    var n := |ds| - 1;
    PickedOne(fair, ds[..n], fs[..n], i);
    if j < n {
      PickedInOrder(fair, ds[..n], fs[..n], i, j);
      StaysInOrder(Picked(fair, ds[..n], fs[..n]), fs[n], fs[i], fs[j]);
    } else {
      NotFound(fair, ds[..n], fs[..n], fs[n]);
      LastInOrder(Picked(fair, ds[..n], fs[..n]), fs[i], fs[n]);
    }
  }

  lemma PickedOne(fair: real, ds: seq<Demand>, fs: seq<Flow>, i: nat)
    requires DemandsAre(fs, ds) && i < |fs| && !SegmentPlans.Settled(fair, ds[i])
    ensures fs[i] in Picked(fair, ds, fs)
  {
    PickedExactly(fair, ds, fs);
  }

  lemma NotFound(fair: real, ds: seq<Demand>, fs: seq<Flow>, f: Flow)
    requires |ds| == |fs| && f !in fs
    ensures f !in Picked(fair, ds, fs)
  {
  }

  lemma StaysInOrder<T>(list: seq<T>, last: T, x: T, y: T)
    requires x in list && y in list && IndexOf(list, x) < IndexOf(list, y)
    ensures list + [] == list
    ensures x in list + [last] && y in list + [last] && IndexOf(list + [last], x) < IndexOf(list + [last], y)
  {
    FoundBefore(list, [last], x);
    FoundBefore(list, [last], y);
  }

  lemma LastInOrder<T>(list: seq<T>, x: T, y: T)
    requires x in list && y !in list
    ensures x in list + [y] && y in list + [y] && IndexOf(list + [y], x) < IndexOf(list + [y], y)
  {
    FoundBefore(list, [y], x);
    assert (list + [y])[IndexOf(list + [y], y)] == y;
  }

  lemma {:induction false} FoundBefore<T>(s: seq<T>, more: seq<T>, x: T)
    requires x in s
    ensures IndexOf(s + more, x) == IndexOf(s, x)
  {
    if s[0] != x {
      FoundBefore(s[1..], more, x);
      assert (s + more)[1..] == s[1..] + more;
    }
  }

  lemma {:induction false} PickedDemands(fair: real, ds: seq<Demand>, fs: seq<Flow>)
    requires DemandsAre(fs, ds)
    ensures DemandsAre(Picked(fair, ds, fs), Evaluated(fair, ds))
  {
    if ds != [] { PickedDemands(fair, ds[..|ds| - 1], fs[..|ds| - 1]); }
  }

  /** What the evaluation of the flows of a list amounts to, whatever their plan fields held before. */
  lemma OfferedRates(c: Settings, ds: seq<Demand>, fs: seq<Flow>, list: seq<Flow>, was: seq<Plan>, f: Flow)
    requires |ds| == |fs| && list == Picked(FairShare(c, ds), ds, fs) && |was| == |list| && Distinct(list)
    ensures var fair := FairShare(c, ds); var es := Evaluated(fair, ds);
      Offer(c, ds, fs, f).Some? <==> f in list
    ensures var fair := FairShare(c, ds); var es := Evaluated(fair, ds);
      forall k :: 0 <= k < |list| && list[k] == f
        ==> Offer(c, ds, fs, f) == Some(Replan(c, fair, es, was, Unused(c, fair, ds))[k].throughput)
  {
    if f in list {
      var fair := FairShare(c, ds);
      var es := Evaluated(fair, ds);
      PlannedRatesAreScratch(c, fair, es, was, Blank(|es|), Unused(c, fair, ds), IndexOf(list, f));
    }
  }

  /** Evaluates one segment: every flow it carries ends with the lower of what it held and what is offered. */
  method EvaluateSegment(segment: Segment) returns (ghost ds: seq<Demand>)
    requires Distinct(segment.flows)
    modifies segment`fairShare, segment.flows`planned, segment.flows`maxPlanned
    ensures ds == Demands(segment.flows)
    ensures forall f :: f in segment.flows ==>
      f.maxPlanned.throughput == Lowered(old(f.maxPlanned.throughput), Offer(segment.settings, ds, segment.flows, f))
    ensures OrderlyDemands(segment.settings, ds) ==>
      forall f :: f in segment.flows ==>
        f.maxPlanned == LoweredPlan(old(f.maxPlanned), PlanOffer(segment.settings, ds, segment.flows, f))
  {
    ds := Demands(segment.flows);
    UpdateMaxFairShareBwPerFlow(segment);
    PlanSegment(segment, ds);
  }

  method PlanSegment(segment: Segment, ghost ds: seq<Demand>)
    requires Distinct(segment.flows) && ds == Demands(segment.flows)
    requires segment.fairShare == FairShare(segment.settings, ds)
    modifies segment.flows`planned, segment.flows`maxPlanned
    ensures forall f :: f in segment.flows ==>
      f.maxPlanned.throughput == Lowered(old(f.maxPlanned.throughput), Offer(segment.settings, ds, segment.flows, f))
    ensures OrderlyDemands(segment.settings, ds) ==>
      forall f :: f in segment.flows ==>
        f.maxPlanned == LoweredPlan(old(f.maxPlanned), PlanOffer(segment.settings, ds, segment.flows, f))
  {
    ghost var list, was, plans := PlanListed(segment, ds);
    forall f | f in segment.flows {
      OfferIsRate(segment.settings, ds, segment.flows, list, was, plans, f);
    }
  }

  /** The flows to evaluate are listed and planned; the others keep what they held. */
  method PlanListed(segment: Segment, ghost ds: seq<Demand>)
    returns (ghost list: seq<Flow>, ghost was: seq<Plan>, ghost plans: seq<Plan>)
    requires Distinct(segment.flows) && ds == Demands(segment.flows)
    requires segment.fairShare == FairShare(segment.settings, ds)
    modifies segment.flows`planned, segment.flows`maxPlanned
    ensures PlannedFrom(segment.settings, ds, segment.flows, list, was, plans)
    ensures forall f :: f in segment.flows ==> f.maxPlanned == LoweredPlan(old(f.maxPlanned), PlanIn(list, plans, f))
  {
    var unusedBw, evaluated;
    unusedBw, evaluated, was := ListForPlans(segment, ds);
    list := evaluated;
    plans := RecalculateList(segment, evaluated, unusedBw, Evaluated(segment.fairShare, ds), was);
  }

  /** The flows to plan anew, each once, with what they demand and what their plans were. */
  method ListForPlans(segment: Segment, ghost ds: seq<Demand>)
    returns (unusedBw: real, list: seq<Flow>, ghost was: seq<Plan>)
    requires Distinct(segment.flows) && ds == Demands(segment.flows)
    ensures list == Picked(segment.fairShare, ds, segment.flows) && Distinct(list)
    ensures unusedBw == Unused(segment.settings, segment.fairShare, ds)
    ensures DemandsAre(list, Evaluated(segment.fairShare, ds)) && PlansAre(list, was)
    ensures forall k :: 0 <= k < |list| ==> list[k] in segment.flows
  {
    unusedBw, list := NeedToReevaluate(segment);
    PickedDistinct(segment.fairShare, ds, segment.flows);
    PickedDemands(segment.fairShare, ds, segment.flows);
    was := Plans(list);
  }

  /** The plans are those for the flows a segment evaluates, whatever their plan fields held before. */
  ghost predicate PlannedFrom(c: Settings, ds: seq<Demand>, fs: seq<Flow>, list: seq<Flow>, was: seq<Plan>,
                              plans: seq<Plan>) {
    var fair := FairShare(c, ds);
    var planned :=
      && |ds| == |fs| && list == Picked(fair, ds, fs) && |was| == |list| == |plans| && Distinct(list)
      && plans == Replan(c, fair, Evaluated(fair, ds), was, Unused(c, fair, ds));
    planned
  }

  /** The plan that plans for a list have for a flow, if it is on the list. */
  function PlanIn(list: seq<Flow>, plans: seq<Plan>, f: Flow): Option<Plan>
    requires |plans| == |list|
  {
    if f in list then Some(plans[IndexOf(list, f)]) else None
  }

  lemma OfferIsRate(c: Settings, ds: seq<Demand>, fs: seq<Flow>, list: seq<Flow>, was: seq<Plan>, plans: seq<Plan>, f: Flow)
    requires PlannedFrom(c, ds, fs, list, was, plans)
    ensures |ds| == |fs| && |plans| == |list|
    ensures var p := PlanIn(list, plans, f); Offer(c, ds, fs, f) == if p.Some? then Some(p.value.throughput) else None
    ensures OrderlyDemands(c, ds) ==> PlanOffer(c, ds, fs, f) == PlanIn(list, plans, f)
  {
    OfferedRates(c, ds, fs, list, was, f);
    var es := Evaluated(FairShare(c, ds), ds);
    if OrderlyDemands(c, ds) {
      PlansAreScratch(c, FairShare(c, ds), es, was, Blank(|es|), Unused(c, FairShare(c, ds), ds));
    }
  }

  method RecalculateList(segment: Segment, list: seq<Flow>, unusedBw: real, ghost es: seq<Demand>, ghost was: seq<Plan>)
    returns (ghost plans: seq<Plan>)
    requires Distinct(list) && DemandsAre(list, es) && PlansAre(list, was)
    requires forall k :: 0 <= k < |list| ==> list[k] in segment.flows
    modifies segment.flows`planned, segment.flows`maxPlanned
    ensures plans == Replan(segment.settings, segment.fairShare, es, was, unusedBw)
    ensures forall f :: f in segment.flows ==> f.maxPlanned == LoweredPlan(old(f.maxPlanned), PlanIn(list, plans, f))
  {
    plans := Replan(segment.settings, segment.fairShare, es, was, unusedBw);
    if list != [] {
      RecalculateSegmentBw(segment, list, unusedBw, es, was);
    }
  }
}
