/** When a segment keeps within its throughput on every list of flows, also with rates on tags. */
module SegmentAllLists {
  import opened SegmentShares
  import opened SegmentConservation
  import opened SegmentOvercommit
  import opened SegmentCollisions

  predicate NotNegative(d: Demand) {
    d.current >= 0.0 && d.allocation >= 0.0 && d.configured >= 0.0
  }

  /** m active flows among any others; no measured rate, allocation or limit is negative. */
  ghost predicate Presented(c: Settings, m: nat, ds: seq<Demand>, was: seq<Plan>) {
    && ActiveCount(c, ds) == m
    && (forall d :: d in ds ==> NotNegative(d))
    && |was| == |Evaluated(FairShare(c, ds), ds)|
  }

  ghost predicate KeepsWithin(c: Settings, m: nat) {
    forall ds, was :: Presented(c, m, ds, was) ==> Conserved(c, ds, was)
  }

  /** What settings and a fair share among m must be like. */
  predicate Safe(c: Settings, fair: real, m: nat) {
    var least := c.minActivityThreshold;
    if fair <= least then m == 1 || fair != c.maxBwPerInactiveFlow || fair < c.incrementalStep
    else if fair < least + c.incrementalStep then false
    else fair != c.maxBwPerInactiveFlow && (m == 1 || fair == least + c.incrementalStep)
  }

  // ----- No rate falls on a tag

  ghost predicate NoneNegative(es: seq<Demand>) {
    forall k :: 0 <= k < |es| ==> es[k].current >= 0.0 && es[k].configured >= 0.0
  }

  lemma PresentedNotNegative(c: Settings, m: nat, ds: seq<Demand>, was: seq<Plan>)
    requires Presented(c, m, ds, was)
    ensures NoneNegative(Evaluated(FairShare(c, ds), ds))
  {
    var es := Evaluated(FairShare(c, ds), ds);
    EvaluatedMembers(FairShare(c, ds), ds);
    forall k | 0 <= k < |es| ensures es[k].current >= 0.0 && es[k].configured >= 0.0 {
      assert es[k] in es;
    }
  }

  /** With a fair share no more than a step above the threshold, no active flow is of the first category. */
  lemma OffTagsByShare(c: Settings, fair: real, es: seq<Demand>)
    requires NoneNegative(es) && fair <= c.minActivityThreshold + c.incrementalStep
    requires fair != c.maxBwPerInactiveFlow || fair < c.incrementalStep
    ensures NoRateOnTag(c, fair, es)
  {
  }

  lemma KeepsOffTags(c: Settings, m: nat)
    requires m >= 1 && AlwaysConserved(c, m)
    requires var fair := c.throughput / m as real;
      && fair <= c.minActivityThreshold + c.incrementalStep
      && (fair != c.maxBwPerInactiveFlow || fair < c.incrementalStep)
    ensures KeepsWithin(c, m)
  {
    forall ds, was | Presented(c, m, ds, was) ensures Conserved(c, ds, was) {
      FairShareIs(c, ds, m);
      PresentedNotNegative(c, m, ds, was);
      OffTagsByShare(c, FairShare(c, ds), Evaluated(FairShare(c, ds), ds));
      assert Offered(c, m, ds, was);
    }
  }

  // ----- One active flow

  lemma {:induction false} TwoActive(c: Settings, es: seq<Demand>, i: nat, j: nat, n: nat)
    requires i < j < n <= |es| && Active(c, es[i]) && Active(c, es[j])
    ensures ActiveIn(c, es, n) >= 2
  {
    if j < n - 1 {
      TwoActive(c, es, i, j, n - 1);
    } else {
      ActiveCounted(c, es, i, n - 1);
    }
  }

  lemma {:induction false} ActiveCounted(c: Settings, es: seq<Demand>, i: nat, n: nat)
    requires i < n <= |es| && Active(c, es[i])
    ensures ActiveIn(c, es, n) >= 1
  {
    if i < n - 1 { ActiveCounted(c, es, i, n - 1); }
  }

  /** If the one active flow is not of the first category, no rate of that category is on a tag. */
  lemma OffTagsByLater(c: Settings, fair: real, es: seq<Demand>, k: nat)
    requires fair > c.minActivityThreshold + c.incrementalStep && fair != c.maxBwPerInactiveFlow
    requires k < |es| && KindOf(c, fair, es[k]) != First && ActiveIn(c, es, |es|) <= 1
    ensures NoRateOnTag(c, fair, es)
  {
    forall i | 0 <= i < |es| ensures OffTags(c, fair, es[i]) {
      if KindOf(c, fair, es[i]) == First && Active(c, es[i]) {
        TwoActive(c, es, if i < k then i else k, if i < k then k else i, |es|);
      }
    }
  }

  /** If all are of the first category, each is planned at most the fair share. */
  lemma AllFirstWithin(c: Settings, fair: real, es: seq<Demand>, was: seq<Plan>, unused: real)
    requires |was| == |es| && forall k :: 0 <= k < |es| ==> KindOf(c, fair, es[k]) == First
    ensures forall k :: 0 <= k < |es| && Active(c, es[k]) ==> Replan(c, fair, es, was, unused)[k].throughput <= fair
  {
    var r := Category1(c, fair, es, Round(was, |es|, unused), |es|);
    Category1Shape(c, fair, es, Round(was, |es|, unused), |es|);
    AllCounted(c, fair, es, |es|);
    assert Shared(c, fair, es, was, unused) == r;
    ResidualShape(c, fair, es, r.plans, |es|);
  }

  lemma {:induction false} AllCounted(c: Settings, fair: real, es: seq<Demand>, n: nat)
    requires n <= |es| && forall k :: 0 <= k < n ==> KindOf(c, fair, es[k]) == First
    ensures Count(c, fair, es, First, n) == n
  {
    if n > 0 { AllCounted(c, fair, es, n - 1); }
  }

  lemma OneActiveKeeps(c: Settings)
    requires c.throughput > c.minActivityThreshold + c.incrementalStep && c.throughput != c.maxBwPerInactiveFlow
    requires c.throughput >= 0.0 && c.incrementalStep > 0.0
    ensures KeepsWithin(c, 1)
  {
    ConservedWhenStepFits(c, 1);
    forall ds, was | Presented(c, 1, ds, was) ensures Conserved(c, ds, was) {
      var fair := FairShare(c, ds);
      var es := Evaluated(fair, ds);
      EvaluatedActive(c, fair, ds);
      if k :| 0 <= k < |es| && KindOf(c, fair, es[k]) != First {
        OffTagsByLater(c, fair, es, k);
        assert Offered(c, 1, ds, was);
      } else {
        AllFirstWithin(c, fair, es, was, Unused(c, fair, ds));
        FairPlansFit(c, ds, es, Replan(c, fair, es, was, Unused(c, fair, ds)));
      }
    }
  }

  /** With a fair share within the threshold, neither category 1 nor 2 gives capacity back. */
  lemma {:induction false} FirstWithin(c: Settings, fair: real, es: seq<Demand>, r: Round, n: nat)
    requires |r.plans| == |es| && n <= |es| && fair <= c.minActivityThreshold && c.incrementalStep > 0.0
    ensures Category1(c, fair, es, r, n).unused == r.unused
  {
    if n > 0 { FirstWithin(c, fair, es, r, n - 1); }
  }

  lemma {:induction false} SecondWithin(c: Settings, fair: real, es: seq<Demand>, r: Round, total: real, n: nat)
    requires |r.plans| == |es| && n <= |es| && NoneNegative(es) && c.incrementalStep > 0.0
    requires r.unused <= total && total >= 0.0
    ensures Category2(c, fair, es, r, n).unused <= total
    ensures forall k :: 0 <= k < |es| && es[k].current >= fair ==> Category2(c, fair, es, r, n).plans[k] == r.plans[k]
  {
    if n > 0 { SecondWithin(c, fair, es, r, total, n - 1); }
  }

  /** Category 3 plans a saturated flow no more than what is left, or leaves it the fair share. */
  lemma {:induction false} ThirdWithin(c: Settings, fair: real, es: seq<Demand>, r: Round, extra: real, x: real, n: nat)
    requires |r.plans| == |es| && n <= |es| && fair + extra <= x && fair <= x
    requires forall k :: 0 <= k < |es| && es[k].current >= fair ==> r.plans[k].throughput == fair
    ensures forall k :: 0 <= k < |es| && es[k].current >= fair ==> Category3(c, fair, es, r, extra, n).plans[k].throughput <= x
  {
    if n > 0 { ThirdWithin(c, fair, es, r, extra, x, n - 1); }
  }

  lemma ShareWithin(fair: real, r: Round, total: real)
    requires r.left >= 1 && r.unused <= total && total >= 0.0
    ensures fair + Extra(fair, r) <= total
  {
    ExtraFits(fair, r);
    var x := fair + Extra(fair, r);
    TimesMonotone(1, r.left, total);
    OnceIs(total);
    if x > total { TimesGrows(r.left, total, x); }
  }

  lemma OnceIs(x: real)
    ensures Times(1, x) == x
  {
    assert Times(0, x) == 0.0;
  }

  lemma SaturatedWithin(c: Settings, fair: real, es: seq<Demand>, was: seq<Plan>, unused: real, total: real)
    requires |was| == |es| && NoneNegative(es) && c.incrementalStep > 0.0 && fair <= c.minActivityThreshold
    requires unused <= total && total >= fair && total >= 0.0
    ensures forall k :: 0 <= k < |es| && Active(c, es[k]) ==> Replan(c, fair, es, was, unused)[k].throughput <= total
  {
    var n := |es|;
    var r1 := Category1(c, fair, es, Round(was, n, unused), n);
    Category1Shape(c, fair, es, Round(was, n, unused), n);
    FirstWithin(c, fair, es, Round(was, n, unused), n);
    SecondWithin(c, fair, es, r1, total, n);
    var r2 := Category2(c, fair, es, r1, n);
    if r2.left >= 1 {
      ShareWithin(fair, r2, total);
      ThirdWithin(c, fair, es, r2, Extra(fair, r2), total, n);
    }
    ResidualShape(c, fair, es, Shared(c, fair, es, was, unused).plans, n);
  }

  lemma OneActiveKeepsWithin(c: Settings)
    requires 0.0 <= c.throughput <= c.minActivityThreshold && c.incrementalStep > 0.0
    ensures KeepsWithin(c, 1)
  {
    forall ds, was | Presented(c, 1, ds, was) ensures Conserved(c, ds, was) {
      var fair := FairShare(c, ds);
      var es := Evaluated(fair, ds);
      EvaluatedActive(c, fair, ds);
      PresentedNotNegative(c, 1, ds, was);
      UnusedWithinThroughput(c, fair, ds);
      SaturatedWithin(c, fair, es, was, Unused(c, fair, ds), c.throughput);
      FairPlansFit(c, ds, es, Replan(c, fair, es, was, Unused(c, fair, ds)));
    }
  }

  // ----- Lists that overcommit

  /** An idle flow that asks for nothing. */
  const NOTHING := Demand(0.0, 0.0, 0.0, 0.0, 0.0, true)

  /** A flow that measures x, with a limit. */
  function Measured(x: real, limit: real): Demand {
    Demand(x, 0.0, 0.0, 0.0, limit, true)
  }

  lemma DropsBelow(x: real, n: real)
    requires x >= 0.0 && n >= 1.0
    ensures x / n <= x
  {
  }

  lemma HeadAndAlike(head: Demand, b: Demand, m: nat)
    ensures forall d :: d in [head] + Alike(b, m) ==> d == head || d == b
  {
  }

  lemma CrowdNotNegative(head: Demand, k: nat, next: Demand, b: Demand, j: nat)
    requires NotNegative(head) && NotNegative(next) && NotNegative(b)
    ensures forall d :: d in Crowd(head, k, next, b, j) ==> NotNegative(d)
  {
  }

  lemma BreaksOn(c: Settings, m: nat, ds: seq<Demand>, was: seq<Plan>)
    requires Presented(c, m, ds, was) && !Conserved(c, ds, was)
    ensures !KeepsWithin(c, m)
  {
  }

  /** The rate for inactive flows is the fair share: an idle flow is counted out twice. */
  lemma IdleBreaks(c: Settings, m: nat)
    requires m >= 2 && c.minActivityThreshold > 0.0 && c.throughput >= 0.0
    requires c.maxBwPerInactiveFlow == c.throughput / m as real >= c.incrementalStep > 0.0
    ensures !KeepsWithin(c, m)
  {
    var fair := c.throughput / m as real;
    var b := Measured(if fair > c.minActivityThreshold then fair else c.minActivityThreshold + 1.0, c.throughput);
    var ds := [NOTHING] + Alike(b, m);
    DropsBelow(c.throughput, (m - 1) as real);
    HeadEvaluated(c, fair, NOTHING, b, m);
    HeadAndAlike(NOTHING, b, m);
    InactiveRateIsFairShareOvercommits(c, NOTHING, b, m, Blank(m + 1));
    BreaksOn(c, m, ds, Blank(m + 1));
  }

  lemma {:induction false} StepBreaksOn(c: Settings, fair: real, head: Demand, k: nat, next: Demand, b: Demand)
    requires k >= 1 && c.minActivityThreshold >= 0.0 && c.throughput >= 0.0 && fair == c.throughput / (k + 1) as real
    requires OntoFairShare(c, fair, head) && Stepping(c, fair, next) && Busy(c, fair, b)
    requires NotNegative(head) && NotNegative(next) && NotNegative(b)
    ensures !KeepsWithin(c, k + 1)
  {
    var ds := Crowd(head, k, next, b, 0);
    CrowdEvaluated(c, fair, head, k, next, b, 0);
    CrowdNotNegative(head, k, next, b, 0);
    OntoFairShareOvercommits(c, head, k, next, b, 0, Blank(k + 1));
    BreaksOn(c, k + 1, ds, Blank(k + 1));
  }

  /** With several active flows, all but one can be a step below the fair share. */
  lemma StepBreaks(c: Settings, m: nat)
    requires m >= 2 && c.minActivityThreshold > 0.0 && c.throughput >= 0.0 && c.incrementalStep > 0.0
    requires c.maxBwPerInactiveFlow != c.throughput / m as real > c.minActivityThreshold + c.incrementalStep
    ensures !KeepsWithin(c, m)
  {
    var fair, step := c.throughput / m as real, c.incrementalStep;
    StepBreaksOn(c, fair, Measured(fair - step, fair), m - 1, Measured(fair - step / 2.0, fair + step), Measured(fair, fair));
  }

  /** An idle flow counted out twice, and the one active flow steps above the throughput. */
  lemma IdleThenStep(c: Settings, x: Demand)
    requires c.maxBwPerInactiveFlow == c.throughput >= c.incrementalStep > 0.0
    requires c.minActivityThreshold > 0.0 && Stepping(c, c.throughput, x)
    ensures var ds := [NOTHING, x];
      && ActiveCount(c, ds) == 1 && Evaluated(c.throughput, ds) == ds
      && ActiveSum(c, ds, Replan(c, c.throughput, ds, Blank(2), Unused(c, c.throughput, ds)), 2)
         == x.current + c.incrementalStep
  {
    var ds, fair := [NOTHING, x], c.throughput;
    OneMoreEvaluated(c, fair, [], NOTHING);
    OneMoreEvaluated(c, fair, [NOTHING], x);
    assert [] + [NOTHING] == [NOTHING] && [NOTHING] + [x] == ds;
    var r := Round(Blank(2), 2, fair);
    assert Category1(c, fair, ds, r, 0) == r;
    assert Category1(c, fair, ds, r, 1).left == 1 && Category1(c, fair, ds, r, 1).unused == fair;
    var r1 := Category1(c, fair, ds, r, 2);
    assert r1.left == 1 && r1.unused == fair && r1.plans[0].throughput == fair == r1.plans[1].throughput;
    assert Category2(c, fair, ds, r1, 0) == r1;
    assert Category2(c, fair, ds, r1, 1).left == 0 && Category2(c, fair, ds, r1, 1).plans[1] == r1.plans[1];
    var q := Category2(c, fair, ds, r1, 2);
    assert q.left == -1 && q.plans[1] == Stepped(c, x) && q.unused < 0.0;
    assert ActiveSum(c, ds, q.plans, 0) == 0.0 && ActiveSum(c, ds, q.plans, 1) == 0.0;
  }

  lemma OneAndAnIdleBreaks(c: Settings)
    requires c.minActivityThreshold > 0.0 && c.incrementalStep > 0.0
    requires c.maxBwPerInactiveFlow == c.throughput >= c.minActivityThreshold + c.incrementalStep
    ensures !KeepsWithin(c, 1)
  {
    var x := Measured(c.throughput - c.incrementalStep / 2.0, c.throughput + c.incrementalStep);
    var ds := [NOTHING, x];
    IdleThenStep(c, x);
    FairShareIs(c, ds, 1);
    BreaksOn(c, 1, ds, Blank(2));
  }

  // ----- The exact condition

  lemma KeepsIfSafe(c: Settings, m: nat)
    requires m >= 1 && c.throughput >= 0.0 && c.incrementalStep > 0.0 && c.minActivityThreshold > 0.0
    requires Safe(c, c.throughput / m as real, m)
    ensures KeepsWithin(c, m)
  {
    var fair, least, step := c.throughput / m as real, c.minActivityThreshold, c.incrementalStep;
    if m == 1 && fair <= least {
      OneActiveKeepsWithin(c);
    } else if m == 1 && fair > least + step {
      OneActiveKeeps(c);
    } else {
      ConservedExactly(c, m);
      KeepsOffTags(c, m);
    }
  }

  lemma BreaksUnlessSafe(c: Settings, m: nat)
    requires m >= 1 && c.throughput >= 0.0 && c.incrementalStep > 0.0 && c.minActivityThreshold > 0.0
    requires !Safe(c, c.throughput / m as real, m)
    ensures !KeepsWithin(c, m)
  {
    var fair, least, step := c.throughput / m as real, c.minActivityThreshold, c.incrementalStep;
    if least < fair < least + step {
      var ds, was := OvercommittedWhenStepDoesNotFit(c, m);
      assert Presented(c, m, ds, was);
    } else if fair == c.maxBwPerInactiveFlow {
      if m == 1 { OneAndAnIdleBreaks(c); } else { IdleBreaks(c, m); }
    } else {
      StepBreaks(c, m);
    }
  }

  /** A segment with m active flows keeps within its throughput on all lists of flows if and only if
      - its fair share is within the activity threshold, and there is one active flow, or the fair share
        is not the rate for inactive flows or less than a step;
      - or it is the threshold and a step, or there is one active flow and it is more, and in both cases
        it is not the rate for inactive flows. */
  lemma KeepsWithinExactly(c: Settings, m: nat)
    requires c.throughput >= 0.0 && c.incrementalStep > 0.0 && c.minActivityThreshold > 0.0
    ensures KeepsWithin(c, m) <==> m == 0 || Safe(c, c.throughput / m as real, m)
  {
    if m == 0 {
      ConservedWhenNoneActive(c);
      forall ds, was | Presented(c, 0, ds, was) ensures Conserved(c, ds, was) {
        var fair := FairShare(c, ds);
        EvaluatedActive(c, fair, ds);
        var es := Evaluated(fair, ds);
        NoneActive(c, es, Replan(c, fair, es, was, Unused(c, fair, ds)), |es|);
      }
    } else if Safe(c, c.throughput / m as real, m) {
      KeepsIfSafe(c, m);
    } else {
      BreaksUnlessSafe(c, m);
    }
  }

  lemma DefaultShare(t: real, m: nat)
    requires t > 0.0 && m >= 1
    ensures t / m as real != 0.033 * t && (t / m as real > 0.033 * t <==> m <= 30)
    ensures t / m as real <= 0.003 * t <==> m >= 334
    ensures m == 1 ==> t / m as real == t
  {
    ShareAgainst(t, m, 0.033);
    ShareAgainst(t, m, 0.003);
  }

  lemma DefaultSafe(t: real, fair: real, m: nat)
    requires t > 0.0 && m >= 1
    requires fair != 0.033 * t && (fair > 0.033 * t <==> m <= 30) && (fair <= 0.003 * t <==> m >= 334) && (m == 1 ==> fair == t)
    ensures Safe(SettingsFor(DEFAULT_TUNING, t), fair, m)
      <==> (m == 1 && t != DEFAULT_TUNING.maxBwPerInactiveFlowFloor) || m >= 334
  {
  }

  /** With the default tuning a segment keeps within its throughput on all lists with one active flow, unless
      its throughput is the floor of the rate for inactive flows, and with at least 334; with 2 to 333
      active flows there are always lists on which it does not. */
  lemma DefaultTuningKeepsWithin(t: real, m: nat)
    requires t > 0.0
    ensures KeepsWithin(SettingsFor(DEFAULT_TUNING, t), m)
      <==> m == 0 || (m == 1 && t != DEFAULT_TUNING.maxBwPerInactiveFlowFloor) || m >= 334
  {
    var c := SettingsFor(DEFAULT_TUNING, t);
    if m > 0 {
      DefaultShare(t, m);
      DefaultSafe(t, t / m as real, m);
    }
    KeepsWithinExactly(c, m);
  }
}
