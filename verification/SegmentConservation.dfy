/** What the sharing round guarantees: the capacity is not handed out twice, saturated flows
    are treated alike, and what the plan fields held before does not matter. */
module SegmentConservation {
  import opened SegmentShares

  datatype Kind = First | Second | Third

  function KindOf(c: Settings, fair: real, e: Demand): Kind {
    if e.current + c.incrementalStep <= fair then First
    else if e.current < fair then Second
    else Third
  }

  function Count(c: Settings, fair: real, es: seq<Demand>, kind: Kind, n: nat): (k: nat)
    requires n <= |es|
    ensures k <= n
  {
    if n == 0 then 0 else Count(c, fair, es, kind, n - 1) + if KindOf(c, fair, es[n - 1]) == kind then 1 else 0
  }

  predicate Active(c: Settings, e: Demand) {
    e.current > c.minActivityThreshold
  }

  /** The sum of the plans of the first n flows that are active. */
  function ActiveSum(c: Settings, es: seq<Demand>, plans: seq<Plan>, n: nat): real
    requires |plans| == |es| && n <= |es|
  {
    if n == 0 then 0.0
    else ActiveSum(c, es, plans, n - 1) + if Active(c, es[n - 1]) then plans[n - 1].throughput else 0.0
  }

  /** The same sum, restricted to one kind. */
  function KindSum(c: Settings, fair: real, es: seq<Demand>, plans: seq<Plan>, kind: Kind, n: nat): real
    requires |plans| == |es| && n <= |es|
  {
    if n == 0 then 0.0
    else
      KindSum(c, fair, es, plans, kind, n - 1)
      + if Active(c, es[n - 1]) && KindOf(c, fair, es[n - 1]) == kind then plans[n - 1].throughput else 0.0
  }

  function ActiveIn(c: Settings, es: seq<Demand>, n: nat): (k: nat)
    requires n <= |es|
    ensures k <= n
  {
    if n == 0 then 0 else ActiveIn(c, es, n - 1) + if Active(c, es[n - 1]) then 1 else 0
  }

  /** No rate of a category 1 flow is mistaken for a tag: its plan never equals the fair share,
      and if it is active it never equals the rate kept for inactive flows. */
  predicate OffTags(c: Settings, fair: real, e: Demand) {
    KindOf(c, fair, e) == First ==>
      var rate := FirstPlan(c, fair, e, Plan(0.0, 0.0, 0.0)).throughput;
      rate != fair && (Active(c, e) ==> rate != c.maxBwPerInactiveFlow)
  }

  ghost predicate NoRateOnTag(c: Settings, fair: real, es: seq<Demand>) {
    forall i :: 0 <= i < |es| ==> OffTags(c, fair, es[i])
  }

  /** A flow left for the later categories is active. */
  predicate LaterIsActive(c: Settings, fair: real, e: Demand) {
    KindOf(c, fair, e) != First ==> Active(c, e)
  }

  predicate OrderlyFlow(c: Settings, fair: real, e: Demand) {
    OffTags(c, fair, e) && LaterIsActive(c, fair, e)
  }

  /** No rate falls on a tag, and every flow left for the later categories is active. */
  ghost predicate Orderly(c: Settings, fair: real, es: seq<Demand>) {
    forall i :: 0 <= i < |es| ==> OrderlyFlow(c, fair, es[i])
  }

  lemma NoRateWhenOrderly(c: Settings, fair: real, es: seq<Demand>)
    requires Orderly(c, fair, es)
    ensures NoRateOnTag(c, fair, es)
  {
    forall i | 0 <= i < |es| ensures OffTags(c, fair, es[i]) {
      assert OrderlyFlow(c, fair, es[i]);
    }
  }

  // ----- Category 1

  lemma {:induction false} Category1Shape(c: Settings, fair: real, es: seq<Demand>, r: Round, n: nat)
    requires |r.plans| == |es| && n <= |es|
    ensures var q := Category1(c, fair, es, r, n);
      && (forall k :: 0 <= k < n ==> q.plans[k] == FirstPlan(c, fair, es[k], r.plans[k]))
      && (forall k :: n <= k < |es| ==> q.plans[k] == r.plans[k])
      && q.left == r.left - Count(c, fair, es, First, n)
  {
    if n > 0 { Category1Shape(c, fair, es, r, n - 1); }
  }

  lemma {:induction false} Category1Charge(c: Settings, fair: real, es: seq<Demand>, r: Round, n: nat)
    requires |r.plans| == |es| && n <= |es| && NoRateOnTag(c, fair, es)
    ensures Category1(c, fair, es, r, n).unused
         == r.unused - KindSum(c, fair, es, Category1(c, fair, es, r, n).plans, First, n)
  {
    if n > 0 {
      Category1Charge(c, fair, es, r, n - 1);
      Category1Shape(c, fair, es, r, n - 1);
      Category1Shape(c, fair, es, r, n);
      assert OffTags(c, fair, es[n - 1]);
      KindSumFrame(c, fair, es, Category1(c, fair, es, r, n - 1).plans, Category1(c, fair, es, r, n).plans, First, n - 1);
    }
  }

  lemma {:induction false} KindSumFrame(c: Settings, fair: real, es: seq<Demand>, p: seq<Plan>, q: seq<Plan>,
                                        kind: Kind, n: nat)
    requires |p| == |q| == |es| && n <= |es|
    requires forall k :: 0 <= k < n && KindOf(c, fair, es[k]) == kind ==> p[k].throughput == q[k].throughput
    ensures KindSum(c, fair, es, p, kind, n) == KindSum(c, fair, es, q, kind, n)
  {
    if n > 0 { KindSumFrame(c, fair, es, p, q, kind, n - 1); }
  }

  lemma {:induction false} CountsSplit(c: Settings, fair: real, es: seq<Demand>, n: nat)
    requires n <= |es|
    ensures Count(c, fair, es, First, n) + Count(c, fair, es, Second, n) + Count(c, fair, es, Third, n) == n
  {
    if n > 0 { CountsSplit(c, fair, es, n - 1); }
  }

  lemma {:induction false} SumsSplit(c: Settings, fair: real, es: seq<Demand>, p: seq<Plan>, n: nat)
    requires |p| == |es| && n <= |es|
    ensures ActiveSum(c, es, p, n)
         == KindSum(c, fair, es, p, First, n) + KindSum(c, fair, es, p, Second, n) + KindSum(c, fair, es, p, Third, n)
  {
    if n > 0 { SumsSplit(c, fair, es, p, n - 1); }
  }

  // ----- Category 2

  /** The plans are as category 1 leaves them: the fair share exactly on the flows of later kinds. */
  ghost predicate Tagged(c: Settings, fair: real, es: seq<Demand>, plans: seq<Plan>) {
    |plans| == |es|
    && forall k :: 0 <= k < |es| ==> (plans[k].throughput == fair <==> KindOf(c, fair, es[k]) != First)
  }

  lemma {:induction false} Category2Shape(c: Settings, fair: real, es: seq<Demand>, r: Round, n: nat)
    requires Tagged(c, fair, es, r.plans) && n <= |es|
    ensures var q := Category2(c, fair, es, r, n);
      && (forall k :: 0 <= k < |es| && (k >= n || KindOf(c, fair, es[k]) != Second) ==> q.plans[k] == r.plans[k])
      && q.left == r.left - Count(c, fair, es, Second, n)
  {
    if n > 0 { Category2Shape(c, fair, es, r, n - 1); }
  }

  lemma {:induction false} Category2Charge(c: Settings, fair: real, es: seq<Demand>, r: Round, n: nat)
    requires Tagged(c, fair, es, r.plans) && n <= |es| && Orderly(c, fair, es)
    requires r.left == Count(c, fair, es, Second, |es|) + Count(c, fair, es, Third, |es|)
    ensures var q := Category2(c, fair, es, r, n);
      && q.unused == r.unused - KindSum(c, fair, es, q.plans, Second, n)
      && (n > 0 && q.left == 0 && r.left > 0 ==> q.unused >= 0.0)
  {
    if n > 0 {
      Category2Charge(c, fair, es, r, n - 1);
      Category2Shape(c, fair, es, r, n - 1);
      Category2Shape(c, fair, es, r, n);
      CountMonotone(c, fair, es, Second, n, |es|);
      Category2One(c, fair, es, r, n);
    }
  }

  /** One step of category 2 charges what it plans. */
  lemma Category2One(c: Settings, fair: real, es: seq<Demand>, r: Round, n: nat)
    requires Tagged(c, fair, es, r.plans) && 0 < n <= |es| && Orderly(c, fair, es)
    ensures var p, q := Category2(c, fair, es, r, n - 1), Category2(c, fair, es, r, n);
      q.unused - p.unused == KindSum(c, fair, es, p.plans, Second, n - 1) - KindSum(c, fair, es, q.plans, Second, n)
  {
    var p, q := Category2(c, fair, es, r, n - 1), Category2(c, fair, es, r, n);
    Category2Shape(c, fair, es, r, n - 1);
    Category2Shape(c, fair, es, r, n);
    assert OrderlyFlow(c, fair, es[n - 1]);
    KindSumFrame(c, fair, es, p.plans, q.plans, Second, n - 1);
  }

  lemma {:induction false} CountMonotone(c: Settings, fair: real, es: seq<Demand>, kind: Kind, m: nat, n: nat)
    requires m <= n <= |es|
    ensures Count(c, fair, es, kind, m) <= Count(c, fair, es, kind, n)
    decreases n
  {
    if m < n { CountMonotone(c, fair, es, kind, m, n - 1); }
  }

  lemma KindCounted(c: Settings, fair: real, es: seq<Demand>, k: nat)
    requires k < |es|
    ensures Count(c, fair, es, KindOf(c, fair, es[k]), |es|) >= 1
  {
    CountMonotone(c, fair, es, KindOf(c, fair, es[k]), k + 1, |es|);
  }

  // ----- Category 3

  lemma {:induction false} Category3Shape(c: Settings, fair: real, es: seq<Demand>, r: Round, extra: real, n: nat)
    requires |r.plans| == |es| && n <= |es|
    requires forall k :: 0 <= k < |es| && KindOf(c, fair, es[k]) == Third ==> r.plans[k].throughput == fair
    requires forall k :: 0 <= k < |es| && KindOf(c, fair, es[k]) == First ==> r.plans[k].throughput != fair
    ensures var q := Category3(c, fair, es, r, extra, n);
      && (forall k :: 0 <= k < n && KindOf(c, fair, es[k]) == Third ==> q.plans[k] == ThirdPlan(c, fair, es[k], extra))
      && (forall k :: 0 <= k < |es| && (k >= n || KindOf(c, fair, es[k]) != Third) ==> q.plans[k] == r.plans[k])
  {
    if n > 0 { Category3Shape(c, fair, es, r, extra, n - 1); }
  }

  lemma {:induction false} Category3Charge(c: Settings, fair: real, es: seq<Demand>, r: Round, extra: real, n: nat)
    requires |r.plans| == |es| && n <= |es| && Orderly(c, fair, es)
    requires forall k :: 0 <= k < |es| && KindOf(c, fair, es[k]) == Third ==> r.plans[k].throughput == fair
    requires forall k :: 0 <= k < |es| && KindOf(c, fair, es[k]) == First ==> r.plans[k].throughput != fair
    ensures var q := Category3(c, fair, es, r, extra, n);
      q.unused == r.unused - KindSum(c, fair, es, q.plans, Third, n)
  {
    if n > 0 {
      Category3Charge(c, fair, es, r, extra, n - 1);
      Category3Shape(c, fair, es, r, extra, n - 1);
      Category3Shape(c, fair, es, r, extra, n);
      assert OrderlyFlow(c, fair, es[n - 1]);
      KindSumFrame(c, fair, es, Category3(c, fair, es, r, extra, n - 1).plans, Category3(c, fair, es, r, extra, n).plans, Third, n - 1);
    }
  }

  /** x added k times. */
  function Times(k: nat, x: real): real {
    if k == 0 then 0.0 else Times(k - 1, x) + x
  }

  lemma {:induction false} TimesIsProduct(k: nat, x: real)
    ensures Times(k, x) == k as real * x
  {
    if k > 0 { TimesIsProduct(k - 1, x); }
  }

  lemma {:induction false} ThirdSumBound(c: Settings, fair: real, es: seq<Demand>, plans: seq<Plan>, x: real, n: nat)
    requires |plans| == |es| && n <= |es| && Orderly(c, fair, es)
    requires forall k :: 0 <= k < n && KindOf(c, fair, es[k]) == Third ==> plans[k].throughput <= x
    ensures KindSum(c, fair, es, plans, Third, n) <= Times(Count(c, fair, es, Third, n), x)
  {
    if n > 0 {
      ThirdSumBound(c, fair, es, plans, x, n - 1);
      assert OrderlyFlow(c, fair, es[n - 1]);
    }
  }

  lemma EvenShare(n: real, fair: real, unused: real)
    requires n > 0.0
    ensures n * (fair + (unused - n * fair) / n) == unused
  {
    var rest := unused - n * fair;
    var e := rest / n;
    assert n * e == rest;
    assert n * (fair + e) == n * fair + n * e;
  }

  /** The third plans share what is left evenly. */
  lemma ExtraFits(fair: real, r: Round)
    requires r.left >= 1
    ensures Times(r.left, fair + Extra(fair, r)) == r.unused
  {
    TimesIsProduct(r.left, fair + Extra(fair, r));
    EvenShare(r.left as real, fair, r.unused);
  }

  /** Category 3 hands out no more than what is left. */
  lemma Category3Fits(c: Settings, fair: real, es: seq<Demand>, r: Round)
    requires |r.plans| == |es| && Orderly(c, fair, es)
    requires r.left == Count(c, fair, es, Third, |es|) >= 1
    requires forall k :: 0 <= k < |es| && KindOf(c, fair, es[k]) == Third ==> r.plans[k].throughput == fair
    requires forall k :: 0 <= k < |es| && KindOf(c, fair, es[k]) == First ==> r.plans[k].throughput != fair
    ensures var q := Category3(c, fair, es, r, Extra(fair, r), |es|);
      && q.unused == r.unused - KindSum(c, fair, es, q.plans, Third, |es|)
      && q.unused >= 0.0
  {
    var extra := Extra(fair, r);
    var q := Category3(c, fair, es, r, extra, |es|);
    Category3Shape(c, fair, es, r, extra, |es|);
    Category3Charge(c, fair, es, r, extra, |es|);
    ThirdSumBound(c, fair, es, q.plans, fair + extra, |es|);
    ExtraFits(fair, r);
  }

  /** What category 1 hands over to category 2. */
  lemma AfterCategory1(c: Settings, fair: real, es: seq<Demand>, was: seq<Plan>, unused: real)
    requires |was| == |es| && NoRateOnTag(c, fair, es)
    ensures var r := Category1(c, fair, es, Round(was, |es|, unused), |es|);
      && Tagged(c, fair, es, r.plans)
      && r.left == Count(c, fair, es, Second, |es|) + Count(c, fair, es, Third, |es|)
      && r.unused == unused - KindSum(c, fair, es, r.plans, First, |es|)
  {
    var r0 := Round(was, |es|, unused);
    Category1Shape(c, fair, es, r0, |es|);
    Category1Charge(c, fair, es, r0, |es|);
    CountsSplit(c, fair, es, |es|);
    forall k | 0 <= k < |es|
      ensures Category1(c, fair, es, r0, |es|).plans[k].throughput == fair <==> KindOf(c, fair, es[k]) != First
    {
      assert OffTags(c, fair, es[k]);
    }
  }

  /** Categories 2 and 3 charge every active plan once and never hand out more than was left. */
  lemma LaterCategoriesFit(c: Settings, fair: real, es: seq<Demand>, r: Round)
    requires Tagged(c, fair, es, r.plans) && Orderly(c, fair, es)
    requires r.left == Count(c, fair, es, Second, |es|) + Count(c, fair, es, Third, |es|) >= 1
    ensures var q := Categories23(c, fair, es, r);
      && q.unused == r.unused + KindSum(c, fair, es, r.plans, First, |es|) - ActiveSum(c, es, q.plans, |es|)
      && q.unused >= 0.0
  {
    var n := |es|;
    var r2 := Category2(c, fair, es, r, n);
    Category2Shape(c, fair, es, r, n);
    Category2Charge(c, fair, es, r, n);
    KindSumFrame(c, fair, es, r.plans, r2.plans, First, n);
    var q := Categories23(c, fair, es, r);
    SumsSplit(c, fair, es, q.plans, n);
    if r2.left > 0 {
      Category3Fits(c, fair, es, r2);
      Category3Shape(c, fair, es, r2, Extra(fair, r2), n);
      KindSumFrame(c, fair, es, r2.plans, q.plans, First, n);
      KindSumFrame(c, fair, es, r2.plans, q.plans, Second, n);
    } else {
      NoThird(c, fair, es, r2.plans, n);
    }
  }

  /** When some flow is beyond category 1, the plans of the active flows fit in the capacity
      that was left, unless the residual step reopens it. */
  lemma RoundFitsUnused(c: Settings, fair: real, es: seq<Demand>, was: seq<Plan>, unused: real)
    requires |was| == |es| && Orderly(c, fair, es)
    requires Count(c, fair, es, First, |es|) < |es|
    ensures var r := Shared(c, fair, es, was, unused);
      r.unused == unused - ActiveSum(c, es, r.plans, |es|) && r.unused >= 0.0
  {
    NoRateWhenOrderly(c, fair, es);
    AfterCategory1(c, fair, es, was, unused);
    CountsSplit(c, fair, es, |es|);
    LaterCategoriesFit(c, fair, es, Category1(c, fair, es, Round(was, |es|, unused), |es|));
  }

  lemma {:induction false} NoThird(c: Settings, fair: real, es: seq<Demand>, plans: seq<Plan>, n: nat)
    requires |plans| == |es| && n <= |es| && Count(c, fair, es, Third, n) == 0
    ensures KindSum(c, fair, es, plans, Third, n) == 0.0
  {
    if n > 0 { NoThird(c, fair, es, plans, n - 1); }
  }

  // ----- From the evaluated flows to the whole segment

  /** A flow that is evaluated joins the list. */
  lemma OneMoreEvaluated(c: Settings, fair: real, ds: seq<Demand>, d: Demand)
    requires Reevaluated(fair, d)
    ensures ActiveCount(c, ds + [d]) == ActiveCount(c, ds) + if d.current >= c.minActivityThreshold then 1 else 0
    ensures Evaluated(fair, ds + [d]) == Evaluated(fair, ds) + [d]
    ensures Unused(c, fair, ds + [d]) == Unused(c, fair, ds)
  {
    assert (ds + [d])[..|ds|] == ds;
  }

  lemma {:induction false} TimesMonotone(m: nat, n: nat, x: real)
    requires m <= n && x >= 0.0
    ensures 0.0 <= Times(m, x) <= Times(n, x)
    decreases n
  {
    if m < n { TimesMonotone(m, n - 1, x); }
    else if m > 0 { TimesMonotone(m - 1, n - 1, x); }
  }

  lemma {:induction false} ActiveSumBound(c: Settings, es: seq<Demand>, plans: seq<Plan>, x: real, n: nat)
    requires |plans| == |es| && n <= |es|
    requires forall k :: 0 <= k < n && Active(c, es[k]) ==> plans[k].throughput <= x
    ensures ActiveSum(c, es, plans, n) <= Times(ActiveIn(c, es, n), x)
  {
    if n > 0 { ActiveSumBound(c, es, plans, x, n - 1); }
  }

  lemma {:induction false} ActiveInAppend(c: Settings, es: seq<Demand>, more: seq<Demand>, n: nat)
    requires n <= |es|
    ensures ActiveIn(c, es + more, n) == ActiveIn(c, es, n)
  {
    if n > 0 { ActiveInAppend(c, es, more, n - 1); }
  }

  lemma {:induction false} EvaluatedActive(c: Settings, fair: real, ds: seq<Demand>)
    ensures var es := Evaluated(fair, ds); ActiveIn(c, es, |es|) <= ActiveCount(c, ds)
  {
    if ds != [] {
      var rest, d := ds[..|ds| - 1], ds[|ds| - 1];
      EvaluatedActive(c, fair, rest);
      var more := if Reevaluated(fair, d) then [d] else [];
      ActiveInAppend(c, Evaluated(fair, rest), more, |Evaluated(fair, rest)|);
    }
  }

  lemma {:induction false} UnusedWithinThroughput(c: Settings, fair: real, ds: seq<Demand>)
    requires forall d :: d in ds ==> d.allocation >= 0.0
    ensures Unused(c, fair, ds) <= c.throughput
  {
    if ds != [] {
      assert ds[|ds| - 1] in ds;
      UnusedWithinThroughput(c, fair, ds[..|ds| - 1]);
    }
  }

  lemma FairShareFills(c: Settings, ds: seq<Demand>)
    requires c.throughput >= 0.0
    ensures FairShare(c, ds) >= 0.0
    ensures ActiveCount(c, ds) >= 1 ==> Times(ActiveCount(c, ds), FairShare(c, ds)) == c.throughput
  {
    var n := ActiveCount(c, ds);
    if n >= 1 {
      TimesIsProduct(n, FairShare(c, ds));
      Quotient(c.throughput, n as real);
    }
  }

  lemma Quotient(x: real, n: real)
    requires n >= 1.0 && x >= 0.0
    ensures x / n >= 0.0 && n * (x / n) == x
  {
  }

  /** Plans that never exceed the fair share fit in the segment. */
  lemma FairPlansFit(c: Settings, ds: seq<Demand>, es: seq<Demand>, plans: seq<Plan>)
    requires c.throughput >= 0.0 && |plans| == |es|
    requires ActiveIn(c, es, |es|) <= ActiveCount(c, ds)
    requires forall k :: 0 <= k < |es| && Active(c, es[k]) ==> plans[k].throughput <= FairShare(c, ds)
    ensures ActiveSum(c, es, plans, |es|) <= c.throughput
  {
    var fair, m, n := FairShare(c, ds), ActiveIn(c, es, |es|), ActiveCount(c, ds);
    FairShareFills(c, ds);
    ActiveSumBound(c, es, plans, fair, |es|);
    TimesMonotone(m, n, fair);
    if n == 0 { assert Times(m, fair) == 0.0; }
  }

  lemma {:induction false} ResidualShape(c: Settings, fair: real, es: seq<Demand>, plans: seq<Plan>, n: nat)
    requires |plans| == |es| && n <= |es|
    ensures var r := Residual(c, fair, es, plans, n);
      && (forall k :: 0 <= k < n ==> r[k] == ResidualPlan(c, fair, es[k], plans[k]))
      && (forall k :: n <= k < |es| ==> r[k] == plans[k])
  {
    if n > 0 { ResidualShape(c, fair, es, plans, n - 1); }
  }

  lemma {:induction false} AllFirst(c: Settings, fair: real, es: seq<Demand>, n: nat)
    requires n <= |es| && Count(c, fair, es, First, n) == n
    ensures forall k :: 0 <= k < n ==> KindOf(c, fair, es[k]) == First
  {
    if n > 0 { AllFirst(c, fair, es, n - 1); }
  }

  /** Conservation: the plans of the active flows a segment evaluates add up to at most its
      capacity, whichever categories occur and whether or not the residual step fires. */
  lemma Conservation(c: Settings, ds: seq<Demand>, was: seq<Plan>)
    requires c.throughput >= 0.0
    requires forall d :: d in ds ==> d.allocation >= 0.0
    requires var fair := FairShare(c, ds); var es := Evaluated(fair, ds);
      |was| == |es| && (Count(c, fair, es, First, |es|) < |es| ==> Orderly(c, fair, es))
    ensures var fair := FairShare(c, ds); var es := Evaluated(fair, ds);
      ActiveSum(c, es, Replan(c, fair, es, was, Unused(c, fair, ds)), |es|) <= c.throughput
  {
    var fair := FairShare(c, ds);
    var es := Evaluated(fair, ds);
    var unused := Unused(c, fair, ds);
    var r := Shared(c, fair, es, was, unused);
    EvaluatedActive(c, fair, ds);
    if r.unused >= 1.0 {
      ResidualShape(c, fair, es, r.plans, |es|);
      FairPlansFit(c, ds, es, Residual(c, fair, es, r.plans, |es|));
    } else if Count(c, fair, es, First, |es|) < |es| {
      RoundFitsUnused(c, fair, es, was, unused);
      UnusedWithinThroughput(c, fair, ds);
    } else {
      AllFirst(c, fair, es, |es|);
      Category1Shape(c, fair, es, Round(was, |es|, unused), |es|);
      FairPlansFit(c, ds, es, r.plans);
    }
  }

  /** The flows are orderly whenever the settings keep the inactive ones out of the later
      categories and no rate falls exactly on the fair share or on the inactive rate. */
  lemma OrderlyFromSettings(c: Settings, fair: real, es: seq<Demand>)
    requires c.incrementalStep + c.minActivityThreshold <= fair
    requires c.maxBwPerInactiveFlow != fair
    requires forall e :: e in es ==> e.current + c.incrementalStep != fair
    requires forall e :: e in es && Active(c, e) && e.current + c.incrementalStep <= fair
                         ==> Min(e.current + c.incrementalStep, e.configured) != c.maxBwPerInactiveFlow
    ensures Orderly(c, fair, es)
  {
    forall i | 0 <= i < |es| ensures OrderlyFlow(c, fair, es[i]) {
      assert es[i] in es;
    }
  }

  /** The step and the activity threshold alone keep the inactive flows out of the later categories. */
  lemma OrderlyWhenStepFits(c: Settings, fair: real, es: seq<Demand>)
    requires c.incrementalStep + c.minActivityThreshold <= fair && NoRateOnTag(c, fair, es)
    ensures Orderly(c, fair, es)
  {
    forall i | 0 <= i < |es| ensures OrderlyFlow(c, fair, es[i]) {
      assert OffTags(c, fair, es[i]);
    }
  }

  // ----- Saturation

  /** Every flow the segment counts as active measures at least the fair share. */
  ghost predicate Saturated(c: Settings, ds: seq<Demand>) {
    forall d :: d in ds && d.current >= c.minActivityThreshold ==> d.current >= FairShare(c, ds)
  }

  lemma {:induction false} EvaluatedMembers(fair: real, ds: seq<Demand>)
    ensures forall d :: d in Evaluated(fair, ds) <==> d in ds && Reevaluated(fair, d)
  {
    if ds != [] {
      EvaluatedMembers(fair, ds[..|ds| - 1]);
      assert ds == ds[..|ds| - 1] + [ds[|ds| - 1]];
    }
  }

  lemma {:induction false} SaturatedUnused(c: Settings, fair: real, ds: seq<Demand>)
    requires forall d :: d in ds && d.current >= c.minActivityThreshold ==> d.current >= fair
    ensures Unused(c, fair, ds) == c.throughput
  {
    if ds != [] {
      assert ds[|ds| - 1] in ds;
      SaturatedUnused(c, fair, ds[..|ds| - 1]);
    }
  }

  lemma {:induction false} ThirdCountAppend(c: Settings, fair: real, es: seq<Demand>, more: seq<Demand>, n: nat)
    requires n <= |es|
    ensures Count(c, fair, es + more, Third, n) == Count(c, fair, es, Third, n)
  {
    if n > 0 { ThirdCountAppend(c, fair, es, more, n - 1); }
  }

  lemma {:induction false} SaturatedCount(c: Settings, fair: real, ds: seq<Demand>)
    requires forall d :: d in ds ==> (d.current >= c.minActivityThreshold <==> KindOf(c, fair, d) == Third)
    ensures var es := Evaluated(fair, ds); Count(c, fair, es, Third, |es|) == ActiveCount(c, ds)
  {
    if ds != [] {
      var rest, d := ds[..|ds| - 1], ds[|ds| - 1];
      assert d in ds;
      SaturatedCount(c, fair, rest);
      var more := if Reevaluated(fair, d) then [d] else [];
      ThirdCountAppend(c, fair, Evaluated(fair, rest), more, |Evaluated(fair, rest)|);
    }
  }

  lemma {:induction false} NoSecond(c: Settings, fair: real, es: seq<Demand>, n: nat)
    requires n <= |es|
    requires forall e :: e in es ==> KindOf(c, fair, e) != Second
    ensures Count(c, fair, es, Second, n) == 0
  {
    if n > 0 {
      assert es[n - 1] in es;
      NoSecond(c, fair, es, n - 1);
    }
  }

  lemma {:induction false} NoActiveFirst(c: Settings, fair: real, es: seq<Demand>, plans: seq<Plan>, n: nat)
    requires |plans| == |es| && n <= |es|
    requires forall e :: e in es && Active(c, e) ==> KindOf(c, fair, e) != First
    ensures KindSum(c, fair, es, plans, First, n) == 0.0
  {
    if n > 0 {
      assert es[n - 1] in es;
      NoActiveFirst(c, fair, es, plans, n - 1);
    }
  }

  /** With N flows left and the whole capacity unspent, nothing is extra. */
  lemma NoExtra(c: Settings, ds: seq<Demand>, r: Round)
    requires c.throughput >= 0.0 && r.left == ActiveCount(c, ds) >= 1 && r.unused == c.throughput
    ensures Extra(FairShare(c, ds), r) == 0.0
  {
    Quotient(c.throughput, r.left as real);
  }

  lemma {:induction false} Category2Idle(c: Settings, fair: real, es: seq<Demand>, r: Round, n: nat)
    requires Tagged(c, fair, es, r.plans) && n <= |es|
    requires forall e :: e in es ==> KindOf(c, fair, e) != Second
    ensures Category2(c, fair, es, r, n) == r
  {
    if n > 0 {
      assert es[n - 1] in es;
      Category2Idle(c, fair, es, r, n - 1);
    }
  }

  /** Fairness: when every active flow is saturated, each is planned its fair share or its own
      limit, whichever is lower, whether or not the residual step fires. */
  lemma FairWhenSaturated(c: Settings, ds: seq<Demand>, was: seq<Plan>, k: nat)
    requires c.throughput >= 0.0 && c.incrementalStep > 0.0 && Saturated(c, ds)
    requires var fair := FairShare(c, ds); var es := Evaluated(fair, ds);
      |was| == |es| && Orderly(c, fair, es) && k < |es| && Active(c, es[k])
    ensures var fair := FairShare(c, ds); var es := Evaluated(fair, ds);
      Replan(c, fair, es, was, Unused(c, fair, ds))[k].throughput == Min(fair, es[k].configured)
  {
    var fair := FairShare(c, ds);
    var es := Evaluated(fair, ds);
    var unused := Unused(c, fair, ds);
    EvaluatedMembers(fair, ds);
    forall d | d in ds ensures d.current >= c.minActivityThreshold <==> KindOf(c, fair, d) == Third {
      if KindOf(c, fair, d) == Third {
        var i :| 0 <= i < |es| && es[i] == d;
        assert OrderlyFlow(c, fair, es[i]);
      }
    }
    forall e | e in es ensures KindOf(c, fair, e) != Second && (Active(c, e) ==> KindOf(c, fair, e) == Third) {
      var i :| 0 <= i < |es| && es[i] == e;
      assert OrderlyFlow(c, fair, es[i]);
    }
    SaturatedUnused(c, fair, ds);
    SaturatedCount(c, fair, ds);
    NoRateWhenOrderly(c, fair, es);
    AfterCategory1(c, fair, es, was, unused);
    NoSecond(c, fair, es, |es|);
    var r1 := Category1(c, fair, es, Round(was, |es|, unused), |es|);
    NoActiveFirst(c, fair, es, r1.plans, |es|);
    Category2Idle(c, fair, es, r1, |es|);
    KindCounted(c, fair, es, k);
    NoExtra(c, ds, r1);
    Category3Shape(c, fair, es, r1, 0.0, |es|);
    var r := Shared(c, fair, es, was, unused);
    ResidualShape(c, fair, es, r.plans, |es|);
  }
}
