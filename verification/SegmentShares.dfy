/** How one segment shares its capacity among the flows that cross it.

    The functions of this module say what the loops of the segment algorithm compute,
    one prefix of the flow list at a time; the loops themselves are in SegmentAlgorithm.
    Rates are exact reals: the algorithm uses equality of rates as a category tag. */
module SegmentShares {
  import opened Common

  const MAX_THROUGHPUT: real := 9999999999.0

  /** The settings of a segment, fixed when the segment is created. */
  datatype Settings = Settings(
    throughput: real,
    maxBwPerInactiveFlow: real,
    minActivityThreshold: real,
    incrementalStep: real,
    inactivityIncrementalStep: real,
    tolerationThreshold: real,
    actionUpperThreshold: real)

  /** The tuning of the algorithm: percentages of a segment's capacity, or absolute rates. */
  datatype Tuning = Tuning(
    maxBwPerInactiveFlow: real,
    maxBwPerInactiveFlowFloor: real,
    minActivityThreshold: real,
    incrementalStep: real,
    inactivityIncrementalStep: real,
    tolerationThreshold: real,
    actionUpperThreshold: real,
    isPercentage: bool)

  const DEFAULT_TUNING := Tuning(20.0, 6.0, 0.3, 3.0, 1.0, 4.0, 1.0, true)

  function SettingsFor(t: Tuning, throughput: real): Settings {
    if t.isPercentage then
      var inactive := t.maxBwPerInactiveFlow * throughput / 100.0;
      Settings(throughput,
               if inactive < t.maxBwPerInactiveFlowFloor then t.maxBwPerInactiveFlowFloor else inactive,
               t.minActivityThreshold * throughput / 100.0,
               t.incrementalStep * throughput / 100.0,
               t.inactivityIncrementalStep * throughput / 100.0,
               t.tolerationThreshold * throughput / 100.0,
               t.actionUpperThreshold * throughput / 100.0)
    else
      Settings(throughput, t.maxBwPerInactiveFlow, t.minActivityThreshold, t.incrementalStep,
               t.inactivityIncrementalStep, t.tolerationThreshold, t.actionUpperThreshold)
  }

  /** What a segment reads of a flow: its measured rate, its standing allocation and its own limit. */
  datatype Demand = Demand(
    current: real,
    allocation: real,
    lowerBound: real,
    upperBound: real,
    configured: real,
    updateRequired: bool)

  /** What a segment writes on a flow. */
  datatype Plan = Plan(throughput: real, lower: real, upper: real)

  /** The running state of one sharing round. */
  datatype Round = Round(plans: seq<Plan>, left: int, unused: real)

  function Min(a: real, b: real): real {
    if a > b then b else a
  }

  // ----- Choosing what to share, and among whom

  function ActiveCount(c: Settings, ds: seq<Demand>): nat {
    if ds == [] then 0
    else ActiveCount(c, ds[..|ds| - 1]) + if ds[|ds| - 1].current >= c.minActivityThreshold then 1 else 0
  }

  function FairShare(c: Settings, ds: seq<Demand>): real {
    var n := ActiveCount(c, ds);
    if n >= 1 then c.throughput / n as real else MAX_THROUGHPUT
  }

  predicate Reevaluated(fair: real, d: Demand) {
    d.current < d.lowerBound || d.current > d.upperBound || d.current >= fair || d.updateRequired
  }

  /** The flows whose plan is computed again, in list order. */
  function Evaluated(fair: real, ds: seq<Demand>): seq<Demand> {
    if ds == [] then []
    else
      var d := ds[|ds| - 1];
      Evaluated(fair, ds[..|ds| - 1]) + if Reevaluated(fair, d) then [d] else []
  }

  /** The capacity left once the standing allocations of the other active flows are kept. */
  function Unused(c: Settings, fair: real, ds: seq<Demand>): real {
    if ds == [] then c.throughput
    else
      var d := ds[|ds| - 1];
      Unused(c, fair, ds[..|ds| - 1])
      - if !Reevaluated(fair, d) && d.current >= c.minActivityThreshold then d.allocation else 0.0
  }

  // ----- The three categories and the residual step

  /** A plan with its hysteresis bounds below it. */
  function Banded(c: Settings, rate: real, upper: real): Plan {
    var lower := upper - c.tolerationThreshold;
    Plan(rate, if lower < c.minActivityThreshold then c.minActivityThreshold else lower, upper)
  }

  /** A plan one step above the measured rate, within the flow's own limit. */
  function Stepped(c: Settings, e: Demand): Plan {
    var rate := Min(e.current + c.incrementalStep, e.configured);
    Banded(c, rate, rate - c.actionUpperThreshold)
  }

  function FirstPlan(c: Settings, fair: real, e: Demand, p: Plan): Plan {
    if e.current + c.incrementalStep > fair then p.(throughput := fair)
    else if e.current <= c.minActivityThreshold then Plan(c.maxBwPerInactiveFlow, 0.0, c.inactivityIncrementalStep)
    else Stepped(c, e)
  }

  function Category1(c: Settings, fair: real, es: seq<Demand>, r: Round, n: nat): (r': Round)
    requires |r.plans| == |es| && n <= |es|
    ensures |r'.plans| == |es|
  {
    if n == 0 then r
    else
      var q := Category1(c, fair, es, r, n - 1);
      var p := FirstPlan(c, fair, es[n - 1], q.plans[n - 1]);
      var plans := q.plans[n - 1 := p];
      if es[n - 1].current + c.incrementalStep > fair then Round(plans, q.left, q.unused)
      else Round(plans, q.left - 1, if p.throughput != c.maxBwPerInactiveFlow then q.unused - p.throughput else q.unused)
  }

  function Category2(c: Settings, fair: real, es: seq<Demand>, r: Round, n: nat): (r': Round)
    requires |r.plans| == |es| && n <= |es|
    ensures |r'.plans| == |es|
  {
    if n == 0 then r
    else
      var q := Category2(c, fair, es, r, n - 1);
      if q.plans[n - 1].throughput == fair && es[n - 1].current < fair then
        var rate := Min(q.unused, es[n - 1].configured);
        var p := if q.left == 1 then Banded(c, rate, rate) else Stepped(c, es[n - 1]);
        Round(q.plans[n - 1 := p], q.left - 1, q.unused - p.throughput)
      else q
  }

  function ThirdPlan(c: Settings, fair: real, e: Demand, extra: real): Plan {
    var rate := Min(fair + extra, e.configured);
    var upper := rate - c.actionUpperThreshold;
    Plan(rate, upper - c.tolerationThreshold, upper)
  }

  function Category3(c: Settings, fair: real, es: seq<Demand>, r: Round, extra: real, n: nat): (r': Round)
    requires |r.plans| == |es| && n <= |es|
    ensures |r'.plans| == |es|
  {
    if n == 0 then r
    else
      var q := Category3(c, fair, es, r, extra, n - 1);
      if q.plans[n - 1].throughput == fair && es[n - 1].current >= fair then
        var p := ThirdPlan(c, fair, es[n - 1], extra);
        Round(q.plans[n - 1 := p], q.left, q.unused - p.throughput)
      else q
  }

  function Extra(fair: real, r: Round): real {
    if r.left >= 1 then (r.unused - r.left as real * fair) / r.left as real else 0.0
  }

  /** Category 2 and category 3, each run only while flows are left to serve. */
  function Categories23(c: Settings, fair: real, es: seq<Demand>, r: Round): (r': Round)
    requires |r.plans| == |es|
    ensures |r'.plans| == |es|
  {
    if r.left <= 0 then r
    else
      var q := Category2(c, fair, es, r, |es|);
      if q.left <= 0 then q else Category3(c, fair, es, q, Extra(fair, q), |es|)
  }

  function ResidualPlan(c: Settings, fair: real, e: Demand, p: Plan): Plan {
    if e.current > c.minActivityThreshold then Plan(Min(fair, e.configured), 0.0, 0.0) else p
  }

  function Residual(c: Settings, fair: real, es: seq<Demand>, plans: seq<Plan>, n: nat): (r: seq<Plan>)
    requires |plans| == |es| && n <= |es|
    ensures |r| == |es|
  {
    if n == 0 then plans
    else
      var q := Residual(c, fair, es, plans, n - 1);
      q[n - 1 := ResidualPlan(c, fair, es[n - 1], q[n - 1])]
  }

  /** The state of the round before the residual step. */
  function Shared(c: Settings, fair: real, es: seq<Demand>, was: seq<Plan>, unused: real): (r: Round)
    requires |was| == |es|
    ensures |r.plans| == |es|
  {
    Categories23(c, fair, es, Category1(c, fair, es, Round(was, |es|, unused), |es|))
  }

  /** The plans of one segment for the flows it evaluates; was holds whatever the flows' plan fields held before. */
  function Replan(c: Settings, fair: real, es: seq<Demand>, was: seq<Plan>, unused: real): (plans: seq<Plan>)
    requires |was| == |es|
    ensures |plans| == |es|
  {
    var r := Shared(c, fair, es, was, unused);
    if r.unused >= 1.0 then Residual(c, fair, es, r.plans, |es|) else r.plans
  }

  // ----- What one segment plans for one flow

  /** The flows whose plan is computed again, in the order of Evaluated. */
  function Picked<T>(fair: real, ds: seq<Demand>, fs: seq<T>): (list: seq<T>)
    requires |ds| == |fs|
    ensures |list| == |Evaluated(fair, ds)|
    ensures forall f :: f in list ==> f in fs
  {
    if ds == [] then []
    else
      var n := |ds| - 1;
      Picked(fair, ds[..n], fs[..n]) + if Reevaluated(fair, ds[n]) then [fs[n]] else []
  }

  function IndexOf<T(==)>(s: seq<T>, x: T): (i: nat)
    requires x in s
    ensures i < |s| && s[i] == x
  {
    if s[0] == x then 0 else 1 + IndexOf(s[1..], x)
  }

  function Blank(n: nat): seq<Plan> {
    seq(n, _ => Plan(0.0, 0.0, 0.0))
  }

  /** The plan a segment makes for a flow, if it evaluates the flow at all and plan fields are blank before. */
  function PlanOffer<T(==)>(c: Settings, ds: seq<Demand>, fs: seq<T>, f: T): Option<Plan>
    requires |ds| == |fs|
  {
    var fair := FairShare(c, ds);
    var list := Picked(fair, ds, fs);
    var es := Evaluated(fair, ds);
    if f in list then Some(Replan(c, fair, es, Blank(|es|), Unused(c, fair, ds))[IndexOf(list, f)]) else None
  }

  /** The rate a segment plans for a flow, if it evaluates the flow at all. */
  function Offer<T(==)>(c: Settings, ds: seq<Demand>, fs: seq<T>, f: T): Option<real>
    requires |ds| == |fs|
  {
    var p := PlanOffer(c, ds, fs, f);
    if p.Some? then Some(p.value.throughput) else None
  }
}
