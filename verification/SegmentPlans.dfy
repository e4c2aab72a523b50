/** What a segment plans for each flow, in one formula for each kind of flow, and when the plans of one
    evaluation fit in the segment together with the allocations that are kept. */
module SegmentPlans {
  import opened SegmentShares
  import opened SegmentConservation

  // ----- Settings

  /** The settings of a segment are the tuning's percentages of its throughput, and at least the floor for
      inactive flows, or the tuning's rates as they are. */
  lemma SettingsMean(t: Tuning, throughput: real)
    ensures var s := SettingsFor(t, throughput);
      s.throughput == throughput
      && if t.isPercentage then
           && s.maxBwPerInactiveFlow >= t.maxBwPerInactiveFlowFloor
           && 100.0 * s.maxBwPerInactiveFlow >= t.maxBwPerInactiveFlow * throughput
           && (s.maxBwPerInactiveFlow == t.maxBwPerInactiveFlowFloor
               || 100.0 * s.maxBwPerInactiveFlow == t.maxBwPerInactiveFlow * throughput)
           && 100.0 * s.minActivityThreshold == t.minActivityThreshold * throughput
           && 100.0 * s.incrementalStep == t.incrementalStep * throughput
           && 100.0 * s.inactivityIncrementalStep == t.inactivityIncrementalStep * throughput
           && 100.0 * s.tolerationThreshold == t.tolerationThreshold * throughput
           && 100.0 * s.actionUpperThreshold == t.actionUpperThreshold * throughput
         else
           && s.maxBwPerInactiveFlow == t.maxBwPerInactiveFlow && s.minActivityThreshold == t.minActivityThreshold
           && s.incrementalStep == t.incrementalStep && s.inactivityIncrementalStep == t.inactivityIncrementalStep
           && s.tolerationThreshold == t.tolerationThreshold && s.actionUpperThreshold == t.actionUpperThreshold
  {
  }

  // ----- What is kept

  /** The flow is not evaluated: it is measured within its bounds and below the fair share, on the path it had. */
  predicate Settled(fair: real, d: Demand) {
    d.lowerBound <= d.current <= d.upperBound && d.current < fair && !d.updateRequired
  }

  /** The sum of the allocations that flows with traffic keep. */
  function Kept(c: Settings, fair: real, ds: seq<Demand>): real {
    if ds == [] then 0.0
    else
      var d := ds[|ds| - 1];
      Kept(c, fair, ds[..|ds| - 1]) + if Settled(fair, d) && d.current >= c.minActivityThreshold then d.allocation else 0.0
  }

  /** What is shared is the throughput without the allocations that are kept. */
  lemma {:induction false} UnusedIsWithoutKept(c: Settings, fair: real, ds: seq<Demand>)
    ensures Unused(c, fair, ds) == c.throughput - Kept(c, fair, ds)
  {
    if ds != [] { UnusedIsWithoutKept(c, fair, ds[..|ds| - 1]); }
  }

  /** What is evaluated are exactly the flows that are not settled, as often as they are listed. */
  lemma {:induction false} EvaluatedExactly(fair: real, ds: seq<Demand>, d: Demand)
    ensures multiset(Evaluated(fair, ds))[d] == if Settled(fair, d) then 0 else multiset(ds)[d]
  {
    if ds != [] {
      var n := |ds| - 1;
      assert ds == ds[..n] + [ds[n]];
      EvaluatedExactly(fair, ds[..n], d);
    }
  }

  /** The places in the list of the flows that are counted as active. */
  function ActivePlaces(c: Settings, ds: seq<Demand>): set<int> {
    set i | 0 <= i < |ds| && ds[i].current >= c.minActivityThreshold
  }

  lemma PlacesMore(c: Settings, ds: seq<Demand>, d: Demand)
    ensures |ds| !in ActivePlaces(c, ds)
    ensures ActivePlaces(c, ds + [d]) == ActivePlaces(c, ds) + if d.current >= c.minActivityThreshold then {|ds|} else {}
  {
    var more := ds + [d];
    assert more[|ds|] == d && forall i :: 0 <= i < |ds| ==> more[i] == ds[i];
  }

  /** The active flows are counted by their measured rates, each place once. */
  lemma {:induction false} ActiveCountIs(c: Settings, ds: seq<Demand>)
    ensures ActiveCount(c, ds) == |ActivePlaces(c, ds)|
  {
    if ds != [] {
      var n := |ds| - 1;
      ActiveCountIs(c, ds[..n]);
      PlacesMore(c, ds[..n], ds[n]);
      assert ds == ds[..n] + [ds[n]];
      assert ActivePlaces(c, ds[..n]) + {} == ActivePlaces(c, ds[..n]);
    }
  }

  // ----- The forms of plans

  /** A step above the measured rate, within the limit; to be planned anew above a margin below the plan, or
      below that by the tolerance, but not above the activity threshold. */
  predicate StepsUp(c: Settings, e: Demand, p: Plan) {
    && (p.throughput == e.current + c.incrementalStep || p.throughput == e.configured)
    && p.throughput <= e.current + c.incrementalStep && p.throughput <= e.configured
    && p.upper == p.throughput - c.actionUpperThreshold
    && (p.lower == p.upper - c.tolerationThreshold || p.lower == c.minActivityThreshold)
    && p.lower >= p.upper - c.tolerationThreshold && p.lower >= c.minActivityThreshold
  }

  /** The rate kept for inactive flows; to be planned anew above the step for inactive flows. */
  predicate Rests(c: Settings, p: Plan) {
    p.throughput == c.maxBwPerInactiveFlow && p.upper == c.inactivityIncrementalStep && p.lower == 0.0
  }

  /** All that is left, within the limit; to be planned anew above that, or below it by the tolerance. */
  predicate TakesRest(c: Settings, e: Demand, rest: real, p: Plan) {
    && (p.throughput == rest || p.throughput == e.configured) && p.throughput <= rest && p.throughput <= e.configured
    && p.upper == p.throughput
    && (p.lower == p.upper - c.tolerationThreshold || p.lower == c.minActivityThreshold)
    && p.lower >= p.upper - c.tolerationThreshold && p.lower >= c.minActivityThreshold
  }

  /** An even share of what is left, within the limit; to be planned anew above a margin below the plan, or
      below that by the tolerance. */
  predicate SharesRest(c: Settings, e: Demand, share: real, p: Plan) {
    && (p.throughput == share || p.throughput == e.configured) && p.throughput <= share && p.throughput <= e.configured
    && p.upper == p.throughput - c.actionUpperThreshold
    && p.lower == p.upper - c.tolerationThreshold
  }

  /** The fair share, within the limit; to be planned anew at once. */
  predicate FairlyLimited(fair: real, e: Demand, p: Plan) {
    && (p.throughput == fair || p.throughput == e.configured) && p.throughput <= fair && p.throughput <= e.configured
    && p.upper == 0.0 && p.lower == 0.0
  }

  // ----- What the passes plan

  /** The sum of the rates a step above those measured, within the limits, of the first n flows that are active
      and of a kind. */
  function StepSum(c: Settings, fair: real, es: seq<Demand>, kind: Kind, n: nat): real
    requires n <= |es|
  {
    if n == 0 then 0.0
    else
      var e := es[n - 1];
      StepSum(c, fair, es, kind, n - 1)
      + if !Active(c, e) || KindOf(c, fair, e) != kind then 0.0
        else if e.configured < e.current + c.incrementalStep then e.configured else e.current + c.incrementalStep
  }

  lemma {:induction false} FirstCharged(c: Settings, fair: real, es: seq<Demand>, plans: seq<Plan>, n: nat)
    requires |plans| == |es| && n <= |es|
    requires forall k :: 0 <= k < n && KindOf(c, fair, es[k]) == First && Active(c, es[k]) ==> plans[k] == Stepped(c, es[k])
    ensures KindSum(c, fair, es, plans, First, n) == StepSum(c, fair, es, First, n)
  {
    if n > 0 { FirstCharged(c, fair, es, plans, n - 1); }
  }

  /** No flow after it is of the second kind. */
  ghost predicate LastSecond(c: Settings, fair: real, es: seq<Demand>, k: nat) {
    forall j :: k < j < |es| ==> KindOf(c, fair, es[j]) != Second
  }

  /** The last of those left to serve takes what remains: it is of the second kind, and none is of the third. */
  ghost predicate ServedLast(c: Settings, fair: real, es: seq<Demand>, k: nat) {
    k < |es| && KindOf(c, fair, es[k]) == Second && LastSecond(c, fair, es, k) && Count(c, fair, es, Third, |es|) == 0
  }

  lemma {:induction false} NoneAfter(c: Settings, fair: real, es: seq<Demand>, k: nat, n: nat)
    requires k < n <= |es| && KindOf(c, fair, es[k]) == Second
    ensures Count(c, fair, es, Second, n) == Count(c, fair, es, Second, k) + 1
            <==> forall j :: k < j < n ==> KindOf(c, fair, es[j]) != Second
  {
    if n > k + 1 {
      NoneAfter(c, fair, es, k, n - 1);
      CountMonotone(c, fair, es, Second, k + 1, n - 1);
    }
  }

  /** The count of flows left is one before a flow of the second kind exactly when it is served last. */
  lemma LastWhenOneLeft(c: Settings, fair: real, es: seq<Demand>, k: nat)
    requires k < |es| && KindOf(c, fair, es[k]) == Second
    ensures Count(c, fair, es, Second, |es|) + Count(c, fair, es, Third, |es|) - Count(c, fair, es, Second, k) == 1
            <==> ServedLast(c, fair, es, k)
  {
    NoneAfter(c, fair, es, k, |es|);
    CountMonotone(c, fair, es, Second, k + 1, |es|);
  }

  /** What category 2 plans for one flow. */
  ghost predicate SecondPlanned(c: Settings, fair: real, es: seq<Demand>, unused: real, k: nat, p: Plan)
    requires k < |es|
  {
    if ServedLast(c, fair, es, k) then
      var rate := Min(unused - StepSum(c, fair, es, Second, k), es[k].configured);
      p == Banded(c, rate, rate)
    else KindOf(c, fair, es[k]) == Second ==> p == Stepped(c, es[k])
  }

  ghost predicate NoneServed(c: Settings, fair: real, es: seq<Demand>, n: nat) {
    forall k :: 0 <= k < n ==> !ServedLast(c, fair, es, k)
  }

  /** Category 2 at one flow, as long as the last is not served. */
  lemma SecondStep(c: Settings, fair: real, es: seq<Demand>, r: Round, n: nat)
    requires Tagged(c, fair, es, r.plans) && n < |es| && Orderly(c, fair, es)
    requires r.left == Count(c, fair, es, Second, |es|) + Count(c, fair, es, Third, |es|)
    requires NoneServed(c, fair, es, n) ==> Category2(c, fair, es, r, n).unused == r.unused - StepSum(c, fair, es, Second, n)
    ensures NoneServed(c, fair, es, n + 1)
            ==> Category2(c, fair, es, r, n + 1).unused == r.unused - StepSum(c, fair, es, Second, n + 1)
    ensures SecondPlanned(c, fair, es, r.unused, n, Category2(c, fair, es, r, n + 1).plans[n])
  {
    var q := Category2(c, fair, es, r, n);
    Category2Shape(c, fair, es, r, n);
    assert OrderlyFlow(c, fair, es[n]);
    if KindOf(c, fair, es[n]) == Second {
      LastWhenOneLeft(c, fair, es, n);
      NoneServedBefore(c, fair, es, n);
    }
  }

  /** Category 2 in one formula: as long as the last is not served, what it has charged are steps. */
  lemma {:induction false} SecondExactly(c: Settings, fair: real, es: seq<Demand>, r: Round, n: nat)
    requires Tagged(c, fair, es, r.plans) && n <= |es| && Orderly(c, fair, es)
    requires r.left == Count(c, fair, es, Second, |es|) + Count(c, fair, es, Third, |es|)
    ensures NoneServed(c, fair, es, n) ==> Category2(c, fair, es, r, n).unused == r.unused - StepSum(c, fair, es, Second, n)
    ensures forall k :: 0 <= k < n ==> SecondPlanned(c, fair, es, r.unused, k, Category2(c, fair, es, r, n).plans[k])
  {
    if n > 0 {
      SecondExactly(c, fair, es, r, n - 1);
      SecondStep(c, fair, es, r, n - 1);
      Category2One(c, fair, es, r, n - 1);
    }
  }

  lemma Category2One(c: Settings, fair: real, es: seq<Demand>, r: Round, n: nat)
    requires |r.plans| == |es| && n < |es|
    ensures forall k :: 0 <= k < |es| && k != n ==>
      Category2(c, fair, es, r, n + 1).plans[k] == Category2(c, fair, es, r, n).plans[k]
  {
  }

  lemma NoneServedBefore(c: Settings, fair: real, es: seq<Demand>, n: nat)
    requires n < |es| && KindOf(c, fair, es[n]) == Second
    ensures NoneServed(c, fair, es, n)
  {
  }

  lemma EvenlyShared(fair: real, r: Round)
    requires r.left >= 1
    ensures fair + Extra(fair, r) == r.unused / r.left as real
  {
    EvenShare(r.left as real, fair, r.unused);
    Divided(r.left as real, fair + Extra(fair, r), r.unused);
  }

  lemma ThirdShares(c: Settings, fair: real, e: Demand, extra: real, share: real)
    requires share == fair + extra
    ensures SharesRest(c, e, share, ThirdPlan(c, fair, e, extra))
  {
  }

  lemma Divided(n: real, x: real, total: real)
    requires n >= 1.0 && n * x == total
    ensures x == total / n
  {
  }

  /** What one evaluation plans for a flow before the residual step, from the capacity there is to share. */
  ghost predicate PlannedAs(c: Settings, fair: real, es: seq<Demand>, unused: real, k: nat, p: Plan)
    requires k < |es|
  {
    var e, thirds := es[k], Count(c, fair, es, Third, |es|);
    var rest := unused - StepSum(c, fair, es, First, |es|);
    match KindOf(c, fair, e)
    case First => if Active(c, e) then StepsUp(c, e, p) else Rests(c, p)
    case Second =>
      if ServedLast(c, fair, es, k) then TakesRest(c, e, rest - StepSum(c, fair, es, Second, k), p) else StepsUp(c, e, p)
    case Third => thirds >= 1 && SharesRest(c, e, (rest - StepSum(c, fair, es, Second, |es|)) / thirds as real, p)
  }

  /** What category 1 leaves to share, and the plans of those it serves. */
  lemma AfterFirst(c: Settings, fair: real, es: seq<Demand>, was: seq<Plan>, unused: real)
    requires |was| == |es| && Orderly(c, fair, es)
    ensures var r := Category1(c, fair, es, Round(was, |es|, unused), |es|);
      && Tagged(c, fair, es, r.plans)
      && r.left == Count(c, fair, es, Second, |es|) + Count(c, fair, es, Third, |es|)
      && r.unused == unused - StepSum(c, fair, es, First, |es|)
      && forall k :: 0 <= k < |es| && KindOf(c, fair, es[k]) == First ==>
           if Active(c, es[k]) then StepsUp(c, es[k], r.plans[k]) else Rests(c, r.plans[k])
  {
    NoRateWhenOrderly(c, fair, es);
    AfterCategory1(c, fair, es, was, unused);
    Category1Shape(c, fair, es, Round(was, |es|, unused), |es|);
    FirstCharged(c, fair, es, Category1(c, fair, es, Round(was, |es|, unused), |es|).plans, |es|);
  }

  /** Categories 2 and 3 leave the plans of category 1. */
  lemma FirstStays(c: Settings, fair: real, es: seq<Demand>, r: Round, k: nat)
    requires Tagged(c, fair, es, r.plans) && k < |es| && KindOf(c, fair, es[k]) == First
    ensures Categories23(c, fair, es, r).plans[k] == r.plans[k]
  {
    var q := Category2(c, fair, es, r, |es|);
    Category2Shape(c, fair, es, r, |es|);
    if q.left > 0 { Category3Shape(c, fair, es, q, Extra(fair, q), |es|); }
  }

  lemma SecondServed(c: Settings, fair: real, es: seq<Demand>, r: Round, k: nat)
    requires Tagged(c, fair, es, r.plans) && k < |es| && KindOf(c, fair, es[k]) == Second && Orderly(c, fair, es)
    requires r.left == Count(c, fair, es, Second, |es|) + Count(c, fair, es, Third, |es|)
    ensures SecondPlanned(c, fair, es, r.unused, k, Categories23(c, fair, es, r).plans[k])
  {
    var q := Category2(c, fair, es, r, |es|);
    KindCounted(c, fair, es, k);
    Category2Shape(c, fair, es, r, |es|);
    SecondExactly(c, fair, es, r, |es|);
    if q.left > 0 { Category3Shape(c, fair, es, q, Extra(fair, q), |es|); }
  }

  lemma ThirdServed(c: Settings, fair: real, es: seq<Demand>, r: Round, k: nat)
    requires Tagged(c, fair, es, r.plans) && k < |es| && KindOf(c, fair, es[k]) == Third && Orderly(c, fair, es)
    requires r.left == Count(c, fair, es, Second, |es|) + Count(c, fair, es, Third, |es|)
    ensures var thirds := Count(c, fair, es, Third, |es|);
      && thirds >= 1
      && SharesRest(c, es[k], (r.unused - StepSum(c, fair, es, Second, |es|)) / thirds as real,
                    Categories23(c, fair, es, r).plans[k])
  {
    var q := Category2(c, fair, es, r, |es|);
    KindCounted(c, fair, es, k);
    Category2Shape(c, fair, es, r, |es|);
    SecondExactly(c, fair, es, r, |es|);
    assert NoneServed(c, fair, es, |es|);
    Category3Shape(c, fair, es, q, Extra(fair, q), |es|);
    EvenlyShared(fair, q);
    ThirdShares(c, fair, es[k], Extra(fair, q), q.unused / q.left as real);
  }

  /** The loops plan each flow a step above its rate, a rest rate, all that is left, or an even share of it, by
      its kind alone; what was planned before does not matter. */
  lemma PlansExactly(c: Settings, fair: real, es: seq<Demand>, was: seq<Plan>, unused: real, k: nat)
    requires |was| == |es| && k < |es| && Orderly(c, fair, es)
    ensures PlannedAs(c, fair, es, unused, k, Shared(c, fair, es, was, unused).plans[k])
  {
    var r := Category1(c, fair, es, Round(was, |es|, unused), |es|);
    AfterFirst(c, fair, es, was, unused);
    KindCounted(c, fair, es, k);
    match KindOf(c, fair, es[k]) {
      case First => if r.left > 0 { FirstStays(c, fair, es, r, k); }
      case Second => SecondServed(c, fair, es, r, k);
      case Third => ThirdServed(c, fair, es, r, k);
    }
  }

  /** The residual step plans every active flow its fair share within its limit, to be planned anew at once, and
      leaves the others. */
  lemma ResidualExactly(c: Settings, fair: real, es: seq<Demand>, was: seq<Plan>, unused: real, k: nat)
    requires |was| == |es| && k < |es|
    ensures var r, p := Shared(c, fair, es, was, unused), Replan(c, fair, es, was, unused)[k];
      if r.unused >= 1.0 && Active(c, es[k]) then FairlyLimited(fair, es[k], p) else p == r.plans[k]
  {
    ResidualShape(c, fair, es, Shared(c, fair, es, was, unused).plans, |es|);
  }

  // ----- The whole segment

  /** What the active flows are planned, what is left of the capacity, and what is kept make up the throughput,
      unless the residual step plans anew. */
  lemma RoundCharges(c: Settings, fair: real, es: seq<Demand>, was: seq<Plan>, unused: real)
    requires |was| == |es| && Orderly(c, fair, es)
    ensures var r := Shared(c, fair, es, was, unused); r.unused == unused - ActiveSum(c, es, r.plans, |es|)
    ensures Count(c, fair, es, First, |es|) < |es| ==> Shared(c, fair, es, was, unused).unused >= 0.0
  {
    if Count(c, fair, es, First, |es|) < |es| {
      RoundFitsUnused(c, fair, es, was, unused);
    } else {
      var r := Shared(c, fair, es, was, unused);
      NoRateWhenOrderly(c, fair, es);
      AfterCategory1(c, fair, es, was, unused);
      CountsSplit(c, fair, es, |es|);
      SumsSplit(c, fair, es, r.plans, |es|);
      NoneOf(c, fair, es, r.plans, Second, |es|);
      NoneOf(c, fair, es, r.plans, Third, |es|);
    }
  }

  lemma {:induction false} NoneOf(c: Settings, fair: real, es: seq<Demand>, plans: seq<Plan>, kind: Kind, n: nat)
    requires |plans| == |es| && n <= |es| && Count(c, fair, es, kind, n) == 0
    ensures KindSum(c, fair, es, plans, kind, n) == 0.0
  {
    if n > 0 { NoneOf(c, fair, es, plans, kind, n - 1); }
  }

  /** What one evaluation plans for active flows and what others keep. */
  function Load(c: Settings, ds: seq<Demand>, was: seq<Plan>): real
    requires |was| == |Evaluated(FairShare(c, ds), ds)|
  {
    var fair := FairShare(c, ds);
    var es := Evaluated(fair, ds);
    ActiveSum(c, es, Replan(c, fair, es, was, Unused(c, fair, ds)), |es|) + Kept(c, fair, ds)
  }

  /** Where some flow is beyond the first category and the residual step does not fire, the whole segment fits. */
  lemma WholeSegmentFits(c: Settings, ds: seq<Demand>, was: seq<Plan>)
    requires var fair := FairShare(c, ds); var es := Evaluated(fair, ds);
      && |was| == |es| && Orderly(c, fair, es) && Count(c, fair, es, First, |es|) < |es|
      && Shared(c, fair, es, was, Unused(c, fair, ds)).unused < 1.0
    ensures Load(c, ds, was) <= c.throughput
  {
    var fair := FairShare(c, ds);
    UnusedIsWithoutKept(c, fair, ds);
    RoundCharges(c, fair, Evaluated(fair, ds), was, Unused(c, fair, ds));
  }

  /** The sum of the fair share, or the limit where lower, over the active flows. */
  function Limits(c: Settings, fair: real, es: seq<Demand>): real {
    if es == [] then 0.0
    else
      var e := es[|es| - 1];
      Limits(c, fair, es[..|es| - 1])
      + if !Active(c, e) then 0.0 else if e.configured < fair then e.configured else fair
  }

  lemma {:induction false} ResidualSum(c: Settings, fair: real, es: seq<Demand>, plans: seq<Plan>, n: nat)
    requires |plans| == |es| && n <= |es|
    requires forall k :: 0 <= k < |es| && Active(c, es[k]) ==> FairlyLimited(fair, es[k], plans[k])
    ensures ActiveSum(c, es, plans, n) == Limits(c, fair, es[..n])
  {
    if n > 0 {
      ResidualSum(c, fair, es, plans, n - 1);
      assert es[..n][..n - 1] == es[..n - 1];
    }
  }

  /** What flows keep above the fair share. */
  function KeptAbove(c: Settings, fair: real, ds: seq<Demand>): real {
    if ds == [] then 0.0
    else
      var d := ds[|ds| - 1];
      KeptAbove(c, fair, ds[..|ds| - 1])
      + if Settled(fair, d) && d.current >= c.minActivityThreshold then d.allocation - fair else 0.0
  }

  /** What the limits of evaluated flows leave of their fair shares; a flow right at the threshold is counted
      for a share and gets none. */
  function LimitedBelow(c: Settings, fair: real, ds: seq<Demand>): real {
    if ds == [] then 0.0
    else
      var d := ds[|ds| - 1];
      LimitedBelow(c, fair, ds[..|ds| - 1])
      + if Settled(fair, d) || d.current < c.minActivityThreshold then 0.0
        else if !Active(c, d) then fair
        else if d.configured < fair then fair - d.configured else 0.0
  }

  lemma {:induction false} SharesBalance(c: Settings, fair: real, ds: seq<Demand>)
    ensures Limits(c, fair, Evaluated(fair, ds)) + Kept(c, fair, ds)
         == Times(ActiveCount(c, ds), fair) + KeptAbove(c, fair, ds) - LimitedBelow(c, fair, ds)
  {
    if ds == [] {
    } else {
      var n := |ds| - 1;
      SharesBalance(c, fair, ds[..n]);
      EvaluatedMore(c, fair, ds[..n], ds[n]);
      assert ds == ds[..n] + [ds[n]];
      KeptMore(c, fair, ds[..n], ds[n]);
    }
  }

  /** One flow more: what it may be planned is added, if it is evaluated. */
  lemma EvaluatedMore(c: Settings, fair: real, ds: seq<Demand>, d: Demand)
    ensures Limits(c, fair, Evaluated(fair, ds + [d])) == Limits(c, fair, Evaluated(fair, ds))
            + if Settled(fair, d) || !Active(c, d) then 0.0 else if d.configured < fair then d.configured else fair
  {
    assert (ds + [d])[..|ds|] == ds;
    var before := Evaluated(fair, ds);
    LimitsMore(c, fair, before, d);
    assert before + [] == before;
  }

  lemma KeptMore(c: Settings, fair: real, ds: seq<Demand>, d: Demand)
    ensures var counted := d.current >= c.minActivityThreshold;
      && Kept(c, fair, ds + [d]) == Kept(c, fair, ds) + (if Settled(fair, d) && counted then d.allocation else 0.0)
      && KeptAbove(c, fair, ds + [d]) == KeptAbove(c, fair, ds) + (if Settled(fair, d) && counted then d.allocation - fair else 0.0)
      && LimitedBelow(c, fair, ds + [d]) == LimitedBelow(c, fair, ds)
         + (if Settled(fair, d) || !counted then 0.0 else if !Active(c, d) then fair
            else if d.configured < fair then fair - d.configured else 0.0)
      && Times(ActiveCount(c, ds + [d]), fair) == Times(ActiveCount(c, ds), fair) + if counted then fair else 0.0
  {
    assert (ds + [d])[..|ds|] == ds;
  }

  lemma LimitsMore(c: Settings, fair: real, es: seq<Demand>, e: Demand)
    ensures Limits(c, fair, es + [e])
         == Limits(c, fair, es) + if !Active(c, e) then 0.0 else if e.configured < fair then e.configured else fair
  {
    assert (es + [e])[..|es|] == es;
  }

  /** The exact condition for a segment to carry what an evaluation plans and what is kept. If the residual step
      does not fire, some flow is beyond the first category or the steps of the active flows fit in what is
      not kept; if it does, flows keep no more above the fair share than others' limits leave below it. */
  lemma WholeSegmentExactly(c: Settings, ds: seq<Demand>, was: seq<Plan>)
    requires c.throughput >= 0.0
    requires var fair := FairShare(c, ds); |was| == |Evaluated(fair, ds)| && Orderly(c, fair, Evaluated(fair, ds))
    ensures var fair := FairShare(c, ds);
      var es := Evaluated(fair, ds);
      Load(c, ds, was) <= c.throughput <==>
      if Shared(c, fair, es, was, Unused(c, fair, ds)).unused >= 1.0 then
        KeptAbove(c, fair, ds) <= LimitedBelow(c, fair, ds)
      else
        Count(c, fair, es, First, |es|) < |es| || StepSum(c, fair, es, First, |es|) + Kept(c, fair, ds) <= c.throughput
  {
    var fair := FairShare(c, ds);
    var es := Evaluated(fair, ds);
    var unused := Unused(c, fair, ds);
    UnusedIsWithoutKept(c, fair, ds);
    RoundCharges(c, fair, es, was, unused);
    if Shared(c, fair, es, was, unused).unused >= 1.0 {
      ResidualFits(c, ds, was);
    } else if Count(c, fair, es, First, |es|) == |es| {
      AfterFirst(c, fair, es, was, unused);
      CountsSplit(c, fair, es, |es|);
    }
  }

  lemma ResidualFits(c: Settings, ds: seq<Demand>, was: seq<Plan>)
    requires c.throughput >= 0.0
    requires var fair := FairShare(c, ds);
      && |was| == |Evaluated(fair, ds)|
      && Shared(c, fair, Evaluated(fair, ds), was, Unused(c, fair, ds)).unused >= 1.0
    ensures Load(c, ds, was) <= c.throughput
            <==> KeptAbove(c, FairShare(c, ds), ds) <= LimitedBelow(c, FairShare(c, ds), ds)
  {
    var fair := FairShare(c, ds);
    var es := Evaluated(fair, ds);
    var plans := Replan(c, fair, es, was, Unused(c, fair, ds));
    forall k | 0 <= k < |es| && Active(c, es[k]) ensures FairlyLimited(fair, es[k], plans[k]) {
      ResidualExactly(c, fair, es, was, Unused(c, fair, ds), k);
    }
    ResidualSum(c, fair, es, plans, |es|);
    assert es[..|es|] == es;
    SharesBalance(c, fair, ds);
    FairShareFills(c, ds);
    if ActiveCount(c, ds) == 0 { NoneCounted(c, fair, ds); }
  }

  lemma {:induction false} NoneCounted(c: Settings, fair: real, ds: seq<Demand>)
    requires ActiveCount(c, ds) == 0
    ensures KeptAbove(c, fair, ds) == LimitedBelow(c, fair, ds) == 0.0 && Times(0, fair) == 0.0
  {
    if ds != [] { NoneCounted(c, fair, ds[..|ds| - 1]); }
  }

  /** A kept flow at 33 and one that wants 60 on 100: the second is planned what is not kept. */
  lemma KeptIsTakenOff()
    ensures var c := SettingsFor(DEFAULT_TUNING, 100.0);
      var ds := [Demand(30.0, 33.0, 28.0, 32.0, 1000.0, false), Demand(60.0, 0.0, 0.0, 0.0, 1000.0, false)];
      var fair := FairShare(c, ds);
      && Evaluated(fair, ds) == [ds[1]] && Kept(c, fair, ds) == 33.0
      && Replan(c, fair, [ds[1]], Blank(1), Unused(c, fair, ds))[0].throughput == 67.0
  {
    var c := SettingsFor(DEFAULT_TUNING, 100.0);
    var a, b := Demand(30.0, 33.0, 28.0, 32.0, 1000.0, false), Demand(60.0, 0.0, 0.0, 0.0, 1000.0, false);
    OneIsKept(c, a, b);
    UnusedIsWithoutKept(c, 50.0, [a, b]);
    OneTakesAll(c, 50.0, b, 67.0);
  }

  lemma OneIsKept(c: Settings, a: Demand, b: Demand)
    requires c.throughput == 100.0 && a.current >= c.minActivityThreshold && b.current >= c.minActivityThreshold
    requires Settled(50.0, a) && !Settled(50.0, b)
    ensures FairShare(c, [a, b]) == 50.0 && Evaluated(50.0, [a, b]) == [b] && Kept(c, 50.0, [a, b]) == a.allocation
  {
    assert [a, b][..1] == [a] && [a][..0] == [];
    assert ActiveCount(c, [a]) == 1;
    assert Evaluated(50.0, [a]) == [] && [] + [b] == [b];
    assert Kept(c, 50.0, [a]) == a.allocation;
  }

  /** A single flow that is active and above the fair share is planned all there is, if it may have it. */
  lemma OneTakesAll(c: Settings, fair: real, e: Demand, unused: real)
    requires e.current >= fair && e.current > fair - c.incrementalStep && Active(c, e) && e.configured >= unused
    ensures Replan(c, fair, [e], Blank(1), unused)[0].throughput == unused
  {
    var es := [e];
    assert es[..0] == [] && es[..1] == es;
    assert KindOf(c, fair, e) == Third && Orderly(c, fair, es);
    assert Count(c, fair, es, Third, 0) == 0 && StepSum(c, fair, es, First, 0) == 0.0 == StepSum(c, fair, es, Second, 0);
    assert Count(c, fair, es, Third, 1) == 1 && StepSum(c, fair, es, First, 1) == 0.0 == StepSum(c, fair, es, Second, 1);
    PlansExactly(c, fair, es, Blank(1), unused, 0);
    RoundCharges(c, fair, es, Blank(1), unused);
    ResidualExactly(c, fair, es, Blank(1), unused, 0);
    assert ActiveSum(c, es, Shared(c, fair, es, Blank(1), unused).plans, 0) == 0.0;
  }
}
