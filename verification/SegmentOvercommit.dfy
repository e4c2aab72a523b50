/** When the round keeps within the capacity of a segment on every list of flows: exactly when
    a step above the activity threshold stays within the fair share. Otherwise an idle flow
    listed last is left for category 2, takes what remains, and that can be negative. */
module SegmentOvercommit {
  import opened SegmentShares
  import opened SegmentConservation

  /** m flows alike. */
  function Alike(d: Demand, m: nat): (ds: seq<Demand>)
    ensures |ds| == m && forall k :: 0 <= k < m ==> ds[k] == d
  {
    if m == 0 then [] else Alike(d, m - 1) + [d]
  }

  /** A flow one step from passing the fair share, with room for the step. */
  predicate Stepping(c: Settings, fair: real, d: Demand) {
    && c.minActivityThreshold < d.current < fair < d.current + c.incrementalStep <= d.configured
    && d.updateRequired
  }

  /** A flow that counts as inactive and is left for category 2 all the same. */
  predicate Idle(c: Settings, fair: real, d: Demand) {
    && d.current < c.minActivityThreshold
    && d.current < fair < d.current + c.incrementalStep
    && d.configured >= 0.0 && d.updateRequired
  }

  lemma {:induction false} AlikeEvaluated(c: Settings, fair: real, d: Demand, m: nat)
    requires Stepping(c, fair, d)
    ensures var ds := Alike(d, m);
      ActiveCount(c, ds) == m && Evaluated(fair, ds) == ds && Unused(c, fair, ds) == c.throughput
  {
    if m > 0 {
      AlikeEvaluated(c, fair, d, m - 1);
      OneMoreEvaluated(c, fair, Alike(d, m - 1), d);
    }
  }

  lemma IdleLastEvaluated(c: Settings, fair: real, d: Demand, m: nat, last: Demand)
    requires Stepping(c, fair, d) && Idle(c, fair, last)
    ensures var ds := Alike(d, m) + [last];
      ActiveCount(c, ds) == m && Evaluated(fair, ds) == ds && Unused(c, fair, ds) == c.throughput
  {
    AlikeEvaluated(c, fair, d, m);
    OneMoreEvaluated(c, fair, Alike(d, m), last);
  }

  /** Category 1 passes every flow on. */
  lemma {:induction false} AllPassedOn(c: Settings, fair: real, es: seq<Demand>, r: Round, n: nat)
    requires |r.plans| == |es| && n <= |es|
    requires forall k :: 0 <= k < |es| ==> KindOf(c, fair, es[k]) == Second
    ensures var q := Category1(c, fair, es, r, n);
      && q.left == r.left && q.unused == r.unused
      && forall k :: 0 <= k < n ==> q.plans[k].throughput == fair
  {
    if n > 0 { AllPassedOn(c, fair, es, r, n - 1); }
  }

  /** Category 2 steps every flow but the last one left. */
  lemma {:induction false} AllStepped(c: Settings, fair: real, es: seq<Demand>, d: Demand, r: Round, n: nat)
    requires |r.plans| == |es| == r.left && n < |es| && Stepping(c, fair, d)
    requires forall k :: 0 <= k < |es| ==> r.plans[k].throughput == fair
    requires forall k :: 0 <= k < n ==> es[k] == d
    ensures var q := Category2(c, fair, es, r, n);
      && q.left == r.left - n
      && q.unused == r.unused - Times(n, d.current + c.incrementalStep)
      && (forall k :: 0 <= k < n ==> q.plans[k] == Stepped(c, d))
      && (forall k :: n <= k < |es| ==> q.plans[k] == r.plans[k])
  {
    if n > 0 { AllStepped(c, fair, es, d, r, n - 1); }
  }

  lemma {:induction false} AlikeSum(c: Settings, es: seq<Demand>, plans: seq<Plan>, x: real, n: nat)
    requires |plans| == |es| && n <= |es|
    requires forall k :: 0 <= k < n ==> Active(c, es[k]) && plans[k].throughput == x
    ensures ActiveSum(c, es, plans, n) == Times(n, x)
  {
    if n > 0 { AlikeSum(c, es, plans, x, n - 1); }
  }

  lemma {:induction false} TimesGrows(m: nat, x: real, y: real)
    requires m >= 1 && x < y
    ensures Times(m, x) < Times(m, y)
  {
    if m > 1 { TimesGrows(m - 1, x, y); }
    else { assert Times(0, x) == Times(0, y) == 0.0; }
  }

  /** The plans of m stepping flows and an idle one after them. */
  lemma IdleLastShared(c: Settings, fair: real, d: Demand, m: nat, last: Demand, was: seq<Plan>)
    requires m >= 1 && |was| == m + 1 && Stepping(c, fair, d) && Idle(c, fair, last)
    requires Times(m, d.current + c.incrementalStep) > c.throughput
    ensures var es := Alike(d, m) + [last];
      var r := Shared(c, fair, es, was, c.throughput);
      r.unused == 0.0 && forall k :: 0 <= k < m ==> r.plans[k] == Stepped(c, d)
  {
    var es := Alike(d, m) + [last];
    var r0 := Round(was, m + 1, c.throughput);
    AllPassedOn(c, fair, es, r0, m + 1);
    AllStepped(c, fair, es, d, Category1(c, fair, es, r0, m + 1), m);
  }

  lemma IdleLastSum(c: Settings, fair: real, d: Demand, m: nat, last: Demand, was: seq<Plan>)
    requires m >= 1 && |was| == m + 1 && Stepping(c, fair, d) && Idle(c, fair, last) && Times(m, fair) == c.throughput
    ensures var ds := Alike(d, m) + [last];
      && Evaluated(fair, ds) == ds && NoRateOnTag(c, fair, ds)
      && ActiveSum(c, ds, Replan(c, fair, ds, was, Unused(c, fair, ds)), m + 1)
         == Times(m, d.current + c.incrementalStep) > c.throughput
  {
    var ds := Alike(d, m) + [last];
    IdleLastEvaluated(c, fair, d, m, last);
    TimesGrows(m, fair, d.current + c.incrementalStep);
    IdleLastShared(c, fair, d, m, last, was);
    AlikeSum(c, ds, Replan(c, fair, ds, was, c.throughput), d.current + c.incrementalStep, m);
  }

  /** An idle flow listed last takes the negative remainder of m active flows that each keep a
      step above the fair share: the active plans exceed the capacity, on every segment and for
      every number of active flows. No rate falls on a tag. */
  lemma IdleLastOvercommits(c: Settings, d: Demand, m: nat, last: Demand, was: seq<Plan>)
    requires m >= 1 && |was| == m + 1 && c.throughput >= 0.0
    requires Stepping(c, c.throughput / m as real, d) && Idle(c, c.throughput / m as real, last)
    ensures var ds := Alike(d, m) + [last];
      var fair := c.throughput / m as real;
      && ActiveCount(c, ds) == m && FairShare(c, ds) == fair
      && Evaluated(fair, ds) == ds && NoRateOnTag(c, fair, ds)
      && ActiveSum(c, ds, Replan(c, fair, ds, was, Unused(c, fair, ds)), m + 1)
         == Times(m, d.current + c.incrementalStep) > c.throughput
  {
    var ds := Alike(d, m) + [last];
    IdleLastEvaluated(c, c.throughput / m as real, d, m, last);
    FairShareFills(c, ds);
    IdleLastSum(c, FairShare(c, ds), d, m, last, was);
  }

  // ----- A fair share within the activity threshold

  /** No limit is negative, and every active flow measures at least the fair share. */
  ghost predicate Limited(c: Settings, fair: real, es: seq<Demand>) {
    && 0.0 <= fair <= c.minActivityThreshold && c.incrementalStep > 0.0
    && forall k :: 0 <= k < |es| ==> es[k].configured >= 0.0
  }

  /** Whatever category 2 charges, it never gives capacity back beyond what there was. */
  lemma {:induction false} Category2Within(c: Settings, fair: real, es: seq<Demand>, r: Round, total: real, n: nat)
    requires Tagged(c, fair, es, r.plans) && n <= |es| && Limited(c, fair, es)
    requires r.unused <= total && total >= 0.0
    ensures Category2(c, fair, es, r, n).unused <= total
  {
    if n > 0 {
      Category2Within(c, fair, es, r, total, n - 1);
      Category2Shape(c, fair, es, r, n - 1);
    }
  }

  /** Only flows of the third kind are active. */
  lemma {:induction false} NoneActiveFirst(c: Settings, fair: real, es: seq<Demand>, plans: seq<Plan>, n: nat)
    requires |plans| == |es| && n <= |es| && Limited(c, fair, es)
    ensures KindSum(c, fair, es, plans, First, n) == 0.0
  {
    if n > 0 { NoneActiveFirst(c, fair, es, plans, n - 1); }
  }

  /** The active plans are within x each, for no more flows than there are of the third kind. */
  lemma {:induction false} ActiveThirdBound(c: Settings, fair: real, es: seq<Demand>, plans: seq<Plan>, x: real, n: nat)
    requires |plans| == |es| && n <= |es| && Limited(c, fair, es)
    requires forall k :: 0 <= k < n && Active(c, es[k]) ==> plans[k].throughput <= x
    ensures x >= 0.0 ==> ActiveSum(c, es, plans, n) <= Times(Count(c, fair, es, Third, n), x)
    ensures x < 0.0 ==> ActiveSum(c, es, plans, n) <= 0.0
  {
    if n > 0 { ActiveThirdBound(c, fair, es, plans, x, n - 1); }
  }

  /** Category 3 runs: its even share of what is left fits. */
  lemma SharedEvenly(c: Settings, fair: real, es: seq<Demand>, r: Round, total: real)
    requires |r.plans| == |es| && Limited(c, fair, es)
    requires r.left == Count(c, fair, es, Third, |es|) >= 1 && r.unused <= total && total >= 0.0
    requires forall k :: 0 <= k < |es| && KindOf(c, fair, es[k]) == Third ==> r.plans[k].throughput == fair
    requires forall k :: 0 <= k < |es| && KindOf(c, fair, es[k]) == First ==> r.plans[k].throughput != fair
    ensures ActiveSum(c, es, Category3(c, fair, es, r, Extra(fair, r), |es|).plans, |es|) <= total
  {
    var extra := Extra(fair, r);
    Category3Shape(c, fair, es, r, extra, |es|);
    ActiveThirdBound(c, fair, es, Category3(c, fair, es, r, extra, |es|).plans, fair + extra, |es|);
    ExtraFits(fair, r);
  }

  /** What category 2 leaves when the fair share is within the activity threshold. */
  lemma AfterCategory2(c: Settings, fair: real, es: seq<Demand>, was: seq<Plan>, unused: real, total: real)
    requires |was| == |es| && Limited(c, fair, es) && NoRateOnTag(c, fair, es)
    requires unused <= total && total >= 0.0
    ensures var r := Category2(c, fair, es, Category1(c, fair, es, Round(was, |es|, unused), |es|), |es|);
      && r.left == Count(c, fair, es, Third, |es|) && r.unused <= total
      && (forall k :: 0 <= k < |es| && KindOf(c, fair, es[k]) == Third ==> r.plans[k].throughput == fair)
      && (forall k :: 0 <= k < |es| && KindOf(c, fair, es[k]) == First ==> r.plans[k].throughput != fair)
  {
    var r1 := Category1(c, fair, es, Round(was, |es|, unused), |es|);
    AfterCategory1(c, fair, es, was, unused);
    NoneActiveFirst(c, fair, es, r1.plans, |es|);
    Category2Shape(c, fair, es, r1, |es|);
    Category2Within(c, fair, es, r1, total, |es|);
  }

  lemma SharedWithin(c: Settings, fair: real, es: seq<Demand>, was: seq<Plan>, unused: real, total: real)
    requires |was| == |es| && Limited(c, fair, es) && NoRateOnTag(c, fair, es)
    requires unused <= total && total >= 0.0
    ensures var plans := Shared(c, fair, es, was, unused).plans;
      || ActiveSum(c, es, plans, |es|) <= total
      || forall k :: 0 <= k < |es| && Active(c, es[k]) ==> plans[k].throughput <= fair
  {
    var r1 := Category1(c, fair, es, Round(was, |es|, unused), |es|);
    var r2 := Category2(c, fair, es, r1, |es|);
    AfterCategory1(c, fair, es, was, unused);
    AfterCategory2(c, fair, es, was, unused, total);
    if r1.left > 0 && r2.left > 0 { SharedEvenly(c, fair, es, r2, total); }
  }

  // ----- The exact condition

  /** The plans of the active flows evaluated fit in the segment. */
  ghost predicate Conserved(c: Settings, ds: seq<Demand>, was: seq<Plan>)
    requires |was| == |Evaluated(FairShare(c, ds), ds)|
  {
    var fair := FairShare(c, ds);
    var es := Evaluated(fair, ds);
    ActiveSum(c, es, Replan(c, fair, es, was, Unused(c, fair, ds)), |es|) <= c.throughput
  }

  /** m active flows among any others, with no negative allocation or limit and no rate on a tag. */
  ghost predicate Offered(c: Settings, m: nat, ds: seq<Demand>, was: seq<Plan>) {
    && ActiveCount(c, ds) == m
    && (forall d :: d in ds ==> d.allocation >= 0.0 && d.configured >= 0.0)
    && |was| == |Evaluated(FairShare(c, ds), ds)|
    && NoRateOnTag(c, FairShare(c, ds), Evaluated(FairShare(c, ds), ds))
  }

  ghost predicate AlwaysConserved(c: Settings, m: nat) {
    forall ds, was :: Offered(c, m, ds, was) ==> Conserved(c, ds, was)
  }

  lemma ConservedWhenStepFits(c: Settings, m: nat)
    requires m >= 1 && c.throughput >= 0.0
    requires c.incrementalStep + c.minActivityThreshold <= c.throughput / m as real
    ensures AlwaysConserved(c, m)
  {
    forall ds, was | Offered(c, m, ds, was) ensures Conserved(c, ds, was) {
      OrderlyWhenStepFits(c, FairShare(c, ds), Evaluated(FairShare(c, ds), ds));
      Conservation(c, ds, was);
    }
  }

  lemma ConservedWithinThreshold(c: Settings, m: nat)
    requires m >= 1 && c.throughput >= 0.0 && c.incrementalStep > 0.0
    requires c.throughput / m as real <= c.minActivityThreshold
    ensures AlwaysConserved(c, m)
  {
    forall ds, was | Offered(c, m, ds, was) ensures Conserved(c, ds, was) {
      WithinThreshold(c, m, ds, was);
    }
  }

  lemma WithinThreshold(c: Settings, m: nat, ds: seq<Demand>, was: seq<Plan>)
    requires m >= 1 && c.throughput >= 0.0 && c.incrementalStep > 0.0 && Offered(c, m, ds, was)
    requires c.throughput / m as real <= c.minActivityThreshold
    ensures Conserved(c, ds, was)
  {
    var fair := FairShare(c, ds);
    var es := Evaluated(fair, ds);
    var r := Shared(c, fair, es, was, Unused(c, fair, ds));
    FairShareFills(c, ds);
    EvaluatedMembers(fair, ds);
    EvaluatedActive(c, fair, ds);
    UnusedWithinThroughput(c, fair, ds);
    assert Limited(c, fair, es) by {
      forall k | 0 <= k < |es| ensures es[k].configured >= 0.0 { assert es[k] in es; }
    }
    SharedWithin(c, fair, es, was, Unused(c, fair, ds), c.throughput);
    ResidualShape(c, fair, es, r.plans, |es|);
    if r.unused >= 1.0 || ActiveSum(c, es, r.plans, |es|) > c.throughput {
      FairPlansFit(c, ds, es, Replan(c, fair, es, was, Unused(c, fair, ds)));
    }
  }

  lemma ConservedWhenNoneActive(c: Settings)
    requires c.throughput >= 0.0
    ensures AlwaysConserved(c, 0)
  {
    forall ds, was | Offered(c, 0, ds, was) ensures Conserved(c, ds, was) {
      var fair := FairShare(c, ds);
      var es := Evaluated(fair, ds);
      EvaluatedActive(c, fair, ds);
      NoneActive(c, es, Replan(c, fair, es, was, Unused(c, fair, ds)), |es|);
    }
  }

  lemma {:induction false} NoneActive(c: Settings, es: seq<Demand>, plans: seq<Plan>, n: nat)
    requires |plans| == |es| && n <= |es| && ActiveIn(c, es, n) == 0
    ensures ActiveSum(c, es, plans, n) == 0.0
  {
    if n > 0 { NoneActive(c, es, plans, n - 1); }
  }

  lemma OvercommittedWhenStepDoesNotFit(c: Settings, m: nat) returns (ds: seq<Demand>, was: seq<Plan>)
    requires m >= 1 && c.incrementalStep > 0.0
    requires 0.0 < c.minActivityThreshold < c.throughput / m as real < c.incrementalStep + c.minActivityThreshold
    requires c.throughput >= 0.0
    ensures Offered(c, m, ds, was) && !Conserved(c, ds, was)
    ensures forall d :: d in ds ==> d.current >= 0.0
  {
    var fair, step, least := c.throughput / m as real, c.incrementalStep, c.minActivityThreshold;
    var x := ((if least < fair - step then fair - step else least) + fair) / 2.0;
    var idle := if step > fair then 0.0 else (fair - step + least) / 2.0;
    var d := Demand(x, 0.0, 0.0, 0.0, x + step, true);
    var last := Demand(idle, 0.0, 0.0, 0.0, x + step, true);
    was := seq(m + 1, _ => Plan(0.0, 0.0, 0.0));
    ds := Alike(d, m) + [last];
    IdleLastOvercommits(c, d, m, last, was);
  }

  /** With no rate on a tag, a segment with m active flows keeps within its capacity on all
      lists of flows if and only if its fair share is not between the activity threshold and
      one step above it. */
  lemma ConservedExactly(c: Settings, m: nat)
    requires c.throughput >= 0.0 && c.incrementalStep > 0.0 && c.minActivityThreshold > 0.0
    ensures AlwaysConserved(c, m) <==>
            || m == 0
            || c.throughput / m as real <= c.minActivityThreshold
            || c.throughput / m as real >= c.minActivityThreshold + c.incrementalStep
  {
    if m == 0 {
      ConservedWhenNoneActive(c);
    } else if c.throughput / m as real <= c.minActivityThreshold {
      ConservedWithinThreshold(c, m);
    } else if c.throughput / m as real >= c.minActivityThreshold + c.incrementalStep {
      ConservedWhenStepFits(c, m);
    } else {
      var ds, was := OvercommittedWhenStepDoesNotFit(c, m);
    }
  }

  lemma ShareIn(t: real, n: real, part: real)
    requires n >= 1.0 && t > 0.0
    ensures t / n == (1.0 / n) * t
    ensures part <= 1.0 / n <==> part * n <= 1.0
  {
  }

  lemma Scaled(t: real, a: real, b: real)
    requires t > 0.0
    ensures a * t <= b * t <==> a <= b
  {
  }

  lemma ShareAgainst(t: real, m: nat, part: real)
    requires m >= 1 && t > 0.0
    ensures part * t <= t / m as real <==> part * m as real <= 1.0
    ensures part * t >= t / m as real <==> part * m as real >= 1.0
  {
    ShareIn(t, m as real, part);
    Scaled(t, part, 1.0 / m as real);
    Scaled(t, 1.0 / m as real, part);
  }

  /** With the default tuning every segment keeps within its capacity exactly with up to 30
      active flows, or with so many that the fair share is within the activity threshold. */
  lemma DefaultTuningFits(t: real, m: nat)
    requires t > 0.0
    ensures AlwaysConserved(SettingsFor(DEFAULT_TUNING, t), m) <==> m <= 30 || m >= 334
  {
    var c := SettingsFor(DEFAULT_TUNING, t);
    if m > 0 {
      ShareAgainst(t, m, 0.033);
      ShareAgainst(t, m, 0.003);
    }
    ConservedExactly(c, m);
  }

  /** Two flows at 4.5 and an idle one after them are planned 21 on a segment of 10. */
  lemma TwoAndAnIdleOvercommit()
    ensures var c := Settings(10.0, 2.0, 1.0, 6.0, 1.0, 1.0, 1.0);
      var d := Demand(4.5, 0.0, 0.0, 0.0, 20.0, true);
      var ds := [d, d, Demand(0.0, 0.0, 0.0, 0.0, 20.0, true)];
      var fair := FairShare(c, ds);
      var was := seq(3, _ => Plan(0.0, 0.0, 0.0));
      && Evaluated(fair, ds) == ds && NoRateOnTag(c, fair, ds)
      && ActiveSum(c, ds, Replan(c, fair, ds, was, Unused(c, fair, ds)), 3) == 21.0
  {
    var c := Settings(10.0, 2.0, 1.0, 6.0, 1.0, 1.0, 1.0);
    var d := Demand(4.5, 0.0, 0.0, 0.0, 20.0, true);
    var last := Demand(0.0, 0.0, 0.0, 0.0, 20.0, true);
    assert Alike(d, 2) + [last] == [d, d, last];
    IdleLastOvercommits(c, d, 2, last, seq(3, _ => Plan(0.0, 0.0, 0.0)));
    TimesIsProduct(2, 10.5);
  }
}
