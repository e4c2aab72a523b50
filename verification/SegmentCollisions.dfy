/** Lists on which a rate is mistaken for a category tag and the segment plans more than it has: a family
    for each way a rate can fall on a tag, and an input of each. */
module SegmentCollisions {
  import opened SegmentShares
  import opened SegmentConservation
  import opened SegmentOvercommit

  /** An active flow that measures at least the fair share. */
  predicate Busy(c: Settings, fair: real, b: Demand) {
    c.incrementalStep > 0.0 && fair <= b.current && c.minActivityThreshold < b.current
  }

  /** From a place on all flows are alike. */
  ghost predicate AlikeFrom(es: seq<Demand>, b: Demand, a: nat) {
    a <= |es| && forall k :: a <= k < |es| ==> es[k] == b
  }

  /** Every flow of the list is evaluated. */
  ghost predicate AllEvaluated(c: Settings, fair: real, ds: seq<Demand>) {
    Evaluated(fair, ds) == ds && Unused(c, fair, ds) == c.throughput
  }

  lemma {:induction false} MoreAlike(c: Settings, fair: real, front: seq<Demand>, d: Demand, n: nat)
    requires Reevaluated(fair, d) && AllEvaluated(c, fair, front)
    ensures AllEvaluated(c, fair, front + Alike(d, n))
    ensures ActiveCount(c, front + Alike(d, n)) == ActiveCount(c, front) + if d.current >= c.minActivityThreshold then n else 0
  {
    if n == 0 {
      assert front + Alike(d, 0) == front;
    } else {
      var before := front + Alike(d, n - 1);
      MoreAlike(c, fair, front, d, n - 1);
      OneMoreEvaluated(c, fair, before, d);
      AlikeMore(front, d, n);
    }
  }

  lemma AlikeMore(front: seq<Demand>, d: Demand, n: nat)
    requires n > 0
    ensures front + Alike(d, n) == front + Alike(d, n - 1) + [d]
  {
  }

  lemma FairShareIs(c: Settings, ds: seq<Demand>, m: nat)
    requires ActiveCount(c, ds) == m >= 1
    ensures FairShare(c, ds) == c.throughput / m as real
  {
  }

  lemma HeadEvaluated(c: Settings, fair: real, head: Demand, b: Demand, n: nat)
    requires Reevaluated(fair, head) && Busy(c, fair, b)
    ensures AllEvaluated(c, fair, [head] + Alike(b, n))
    ensures ActiveCount(c, [head] + Alike(b, n)) == n + if head.current >= c.minActivityThreshold then 1 else 0
  {
    OneMoreEvaluated(c, fair, [], head);
    assert [] + [head] == [head];
    MoreAlike(c, fair, [head], b, n);
  }

  // ----- The passes over flows alike

  /** Category 1 passes saturated flows on. */
  lemma {:induction false} PassedOn(c: Settings, fair: real, es: seq<Demand>, r: Round, b: Demand, a: nat, n: nat)
    requires |r.plans| == |es| && a <= n <= |es| && AlikeFrom(es, b, a) && Busy(c, fair, b)
    ensures var q, p := Category1(c, fair, es, r, n), Category1(c, fair, es, r, a);
      q.left == p.left && q.unused == p.unused
  {
    if n > a { PassedOn(c, fair, es, r, b, a, n - 1); }
  }

  /** Category 2 passes over them. */
  lemma {:induction false} PassedOver(c: Settings, fair: real, es: seq<Demand>, r: Round, b: Demand, a: nat, n: nat)
    requires |r.plans| == |es| && a <= n <= |es| && AlikeFrom(es, b, a) && Busy(c, fair, b)
    ensures Category2(c, fair, es, r, n) == Category2(c, fair, es, r, a)
  {
    if n > a { PassedOver(c, fair, es, r, b, a, n - 1); }
  }

  /** Category 3 serves them alike, and none before them that measures less than the fair share. */
  lemma {:induction false} Served(c: Settings, fair: real, es: seq<Demand>, r: Round, extra: real, b: Demand, n: nat)
    requires |r.plans| == |es| && 1 <= n <= |es| && AlikeFrom(es, b, 1) && Busy(c, fair, b)
    requires es[0].current < fair && forall k :: 1 <= k < |es| ==> r.plans[k].throughput == fair
    ensures var q := Category3(c, fair, es, r, extra, n);
      && q.plans[0] == r.plans[0]
      && (forall k :: 1 <= k < n ==> q.plans[k] == ThirdPlan(c, fair, b, extra))
      && (forall k :: n <= k < |es| ==> q.plans[k] == r.plans[k])
      && q.unused == r.unused - Times(n - 1, ThirdPlan(c, fair, b, extra).throughput)
  {
    if n > 1 {
      Served(c, fair, es, r, extra, b, n - 1);
    } else {
      assert Category3(c, fair, es, r, extra, 0) == r;
    }
  }

  lemma {:induction false} SumFrom(c: Settings, es: seq<Demand>, plans: seq<Plan>, x: real, a: nat, n: nat)
    requires |plans| == |es| && a <= n <= |es|
    requires forall k :: a <= k < n ==> Active(c, es[k]) && plans[k].throughput == x
    ensures ActiveSum(c, es, plans, n) == ActiveSum(c, es, plans, a) + Times(n - a, x)
  {
    if n > a { SumFrom(c, es, plans, x, a, n - 1); }
  }

  lemma TimesOf(k: nat, x: real, total: real)
    requires k >= 1 && Times(k, x) == total
    ensures x == total / k as real
  {
    TimesIsProduct(k, x);
    Divides(total, k as real);
    OneFactor(k as real, x, total / k as real);
  }

  lemma Divides(x: real, k: real)
    requires k >= 1.0
    ensures x / k * k == x
  {
  }

  lemma NotNegative(x: real, k: real)
    requires k >= 1.0 && x >= 0.0
    ensures x / k >= 0.0
  {
  }

  lemma OneFactor(k: real, x: real, y: real)
    requires k >= 1.0 && k * x == y * k
    ensures x == y
  {
  }

  lemma TimesQuotient(total: real, k: nat)
    requires k >= 1
    ensures Times(k, total / k as real) == total
  {
    TimesIsProduct(k, total / k as real);
    Divides(total, k as real);
  }

  /** What category 3 makes of a flow below the fair share and n saturated ones after it. */
  lemma Distributed(c: Settings, fair: real, es: seq<Demand>, r: Round, b: Demand, n: nat, share: real)
    requires |r.plans| == |es| == n + 1 && AlikeFrom(es, b, 1) && Busy(c, fair, b) && es[0].current < fair
    requires r.left >= 1 && share == r.unused / r.left as real <= b.configured
    requires forall k :: 1 <= k <= n ==> r.plans[k].throughput == fair
    ensures var q := Category3(c, fair, es, r, Extra(fair, r), n + 1);
      && Times(r.left, share) == r.unused && q.unused == r.unused - Times(n, share)
      && ActiveSum(c, es, q.plans, n + 1)
         == Times(n, share) + if Active(c, es[0]) then r.plans[0].throughput else 0.0
  {
    var extra := Extra(fair, r);
    ExtraFits(fair, r);
    TimesOf(r.left, fair + extra, r.unused);
    Served(c, fair, es, r, extra, b, n + 1);
    var q := Category3(c, fair, es, r, extra, n + 1);
    SumFrom(c, es, q.plans, share, 1, n + 1);
    assert ActiveSum(c, es, q.plans, 0) == 0.0;
    assert ActiveSum(c, es, q.plans, 1) == if Active(c, es[0]) then r.plans[0].throughput else 0.0;
  }

  // ----- The rate for inactive flows is the fair share

  /** A flow that counts as inactive, below the fair share with its step. */
  predicate Resting(c: Settings, fair: real, idle: Demand) {
    && idle.current < c.minActivityThreshold && idle.current + c.incrementalStep <= fair
    && Stepped(c, idle).throughput < fair && idle.updateRequired
  }

  /** What the saturated flows are planned after the resting one is counted out twice. */
  function ShareOfRest(c: Settings, idle: Demand, m: nat): real
    requires m >= 2
  {
    (c.throughput - Stepped(c, idle).throughput) / (m - 1) as real
  }

  lemma {:induction false} RestingTwice(c: Settings, fair: real, idle: Demand, b: Demand, m: nat, was: seq<Plan>)
    requires m >= 2 && |was| == m + 1 && Resting(c, fair, idle) && Busy(c, fair, b)
    requires c.maxBwPerInactiveFlow == fair
    ensures var es := [idle] + Alike(b, m);
      var r := Category2(c, fair, es, Category1(c, fair, es, Round(was, m + 1, c.throughput), m + 1), m + 1);
      && r.left == m - 1 && r.unused == c.throughput - Stepped(c, idle).throughput
      && Category1(c, fair, es, Round(was, m + 1, c.throughput), m + 1).left == m
      && forall k :: 1 <= k <= m ==> r.plans[k].throughput == fair
  {
    var es := [idle] + Alike(b, m);
    var r := Round(was, m + 1, c.throughput);
    assert Category1(c, fair, es, r, 0) == r;
    PassedOn(c, fair, es, r, b, 1, m + 1);
    Category1Shape(c, fair, es, r, m + 1);
    var r1 := Category1(c, fair, es, r, m + 1);
    assert Category1(c, fair, es, r, 1).left == m;
    assert Category2(c, fair, es, r1, 0) == r1;
    PassedOver(c, fair, es, r1, b, 1, m + 1);
  }

  lemma {:induction false} RestingShared(c: Settings, fair: real, idle: Demand, b: Demand, m: nat, was: seq<Plan>)
    requires m >= 2 && |was| == m + 1 && Resting(c, fair, idle) && Busy(c, fair, b)
    requires c.maxBwPerInactiveFlow == fair >= 0.0 && Times(m, fair) == c.throughput
    requires b.configured >= ShareOfRest(c, idle, m)
    ensures var es := [idle] + Alike(b, m);
      && ActiveSum(c, es, Replan(c, fair, es, was, c.throughput), m + 1) == Times(m, ShareOfRest(c, idle, m))
      && Times(m, ShareOfRest(c, idle, m)) > c.throughput
  {
    var es := [idle] + Alike(b, m);
    var r1 := Category1(c, fair, es, Round(was, m + 1, c.throughput), m + 1);
    var r2 := Category2(c, fair, es, r1, m + 1);
    RestingTwice(c, fair, idle, b, m, was);
    var share := ShareOfRest(c, idle, m);
    Distributed(c, fair, es, r2, b, m, share);
    if share <= fair { TimesWithin(m - 1, share, fair); }
    assert Replan(c, fair, es, was, c.throughput) == Category3(c, fair, es, r2, Extra(fair, r2), m + 1).plans;
  }

  lemma {:induction false} TimesWithin(m: nat, x: real, y: real)
    requires x <= y
    ensures Times(m, x) <= Times(m, y)
  {
    if m > 0 { TimesWithin(m - 1, x, y); }
  }

  /** Wherever the rate for inactive flows is the fair share of m saturated flows, an idle flow before them is
      counted out twice and the m flows share for m - 1: more than the throughput is planned. */
  lemma InactiveRateIsFairShareOvercommits(c: Settings, idle: Demand, b: Demand, m: nat, was: seq<Plan>)
    requires m >= 2 && |was| == m + 1 && c.throughput >= 0.0 && c.maxBwPerInactiveFlow == c.throughput / m as real
    requires Resting(c, c.maxBwPerInactiveFlow, idle) && Busy(c, c.maxBwPerInactiveFlow, b)
    requires b.configured >= ShareOfRest(c, idle, m)
    ensures var ds := [idle] + Alike(b, m);
      var fair := FairShare(c, ds);
      && fair == c.throughput / m as real && Evaluated(fair, ds) == ds
      && ActiveSum(c, ds, Replan(c, fair, ds, was, Unused(c, fair, ds)), m + 1) == Times(m, ShareOfRest(c, idle, m))
      && Times(m, ShareOfRest(c, idle, m)) > c.throughput
  {
    var fair := c.throughput / m as real;
    HeadEvaluated(c, fair, idle, b, m);
    FairShareIs(c, [idle] + Alike(b, m), m);
    TimesQuotient(c.throughput, m);
    NotNegative(c.throughput, m as real);
    RestingShared(c, fair, idle, b, m, was);
  }

  // ----- A step onto the rate for inactive flows

  /** An active flow whose step lands on the rate for inactive flows. */
  predicate OntoInactiveRate(c: Settings, fair: real, head: Demand) {
    && c.minActivityThreshold < head.current && head.current + c.incrementalStep <= fair
    && Stepped(c, head).throughput == c.maxBwPerInactiveFlow != fair && head.updateRequired
  }

  /** Category 1 counts it out and charges nothing; category 2 serves none. */
  lemma {:induction false} Uncharged(c: Settings, fair: real, head: Demand, b: Demand, n: nat, was: seq<Plan>)
    requires n >= 1 && |was| == n + 1 && OntoInactiveRate(c, fair, head) && Busy(c, fair, b)
    ensures var es := [head] + Alike(b, n);
      var r := Category1(c, fair, es, Round(was, n + 1, c.throughput), n + 1);
      && r.left == n && r.unused == c.throughput && r.plans[0] == Stepped(c, head)
      && Category2(c, fair, es, r, n + 1) == r
      && forall k :: 1 <= k <= n ==> r.plans[k].throughput == fair
  {
    var es := [head] + Alike(b, n);
    var r := Round(was, n + 1, c.throughput);
    assert Category1(c, fair, es, r, 0) == r;
    PassedOn(c, fair, es, r, b, 1, n + 1);
    Category1Shape(c, fair, es, r, n + 1);
    var r1 := Category1(c, fair, es, r, n + 1);
    assert Category1(c, fair, es, r, 1).left == n && r1.plans[0] == Stepped(c, head);
    assert Category2(c, fair, es, r1, 0) == r1;
    PassedOver(c, fair, es, r1, b, 1, n + 1);
  }

  lemma {:induction false} UncountedShared(c: Settings, fair: real, head: Demand, b: Demand, n: nat, was: seq<Plan>)
    requires n >= 1 && |was| == n + 1 && OntoInactiveRate(c, fair, head) && Busy(c, fair, b)
    requires b.configured >= c.throughput / n as real
    ensures var es := [head] + Alike(b, n);
      ActiveSum(c, es, Replan(c, fair, es, was, c.throughput), n + 1) == c.throughput + c.maxBwPerInactiveFlow
  {
    var es := [head] + Alike(b, n);
    var r := Category1(c, fair, es, Round(was, n + 1, c.throughput), n + 1);
    Uncharged(c, fair, head, b, n, was);
    Distributed(c, fair, es, r, b, n, c.throughput / n as real);
    assert Replan(c, fair, es, was, c.throughput) == Category3(c, fair, es, r, Extra(fair, r), n + 1).plans;
  }

  /** Wherever the step of an active flow lands on the rate for inactive flows, it is not charged: the other
      m - 1, saturated, share the whole throughput, and its plan comes on top. */
  lemma OntoInactiveRateOvercommits(c: Settings, head: Demand, b: Demand, m: nat, was: seq<Plan>)
    requires m >= 2 && |was| == m && c.maxBwPerInactiveFlow > 0.0
    requires OntoInactiveRate(c, c.throughput / m as real, head) && Busy(c, c.throughput / m as real, b)
    requires b.configured >= c.throughput / (m - 1) as real
    ensures var ds := [head] + Alike(b, m - 1);
      var fair := FairShare(c, ds);
      && fair == c.throughput / m as real && Evaluated(fair, ds) == ds
      && ActiveSum(c, ds, Replan(c, fair, ds, was, Unused(c, fair, ds)), m)
         == c.throughput + c.maxBwPerInactiveFlow > c.throughput
  {
    var fair := c.throughput / m as real;
    HeadEvaluated(c, fair, head, b, m - 1);
    FairShareIs(c, [head] + Alike(b, m - 1), m);
    UncountedShared(c, fair, head, b, m - 1, was);
  }

  // ----- A step onto the fair share

  /** An active flow measured exactly one step below the fair share. */
  predicate OntoFairShare(c: Settings, fair: real, head: Demand) {
    && c.minActivityThreshold < head.current && head.current + c.incrementalStep == fair <= head.configured
    && c.incrementalStep > 0.0 && fair != c.maxBwPerInactiveFlow && head.updateRequired
  }

  /** Some flows one step below the fair share, a flow that steps above it, and saturated flows. */
  function Crowd(head: Demand, k: nat, next: Demand, b: Demand, j: nat): (ds: seq<Demand>)
    ensures |ds| == k + 1 + j && ds[k] == next
    ensures forall i :: 0 <= i < k ==> ds[i] == head
    ensures forall i :: k < i < k + 1 + j ==> ds[i] == b
  {
    Alike(head, k) + [next] + Alike(b, j)
  }

  lemma CrowdEvaluated(c: Settings, fair: real, head: Demand, k: nat, next: Demand, b: Demand, j: nat)
    requires OntoFairShare(c, fair, head) && Stepping(c, fair, next) && Busy(c, fair, b)
    ensures AllEvaluated(c, fair, Crowd(head, k, next, b, j))
    ensures ActiveCount(c, Crowd(head, k, next, b, j)) == k + 1 + j
  {
    assert [] + Alike(head, k) == Alike(head, k);
    MoreAlike(c, fair, [], head, k);
    OneMoreEvaluated(c, fair, Alike(head, k), next);
    MoreAlike(c, fair, Alike(head, k) + [next], b, j);
  }

  /** Category 1 plans the first n of them the fair share and counts them out. */
  lemma {:induction false} CountedOut(c: Settings, fair: real, es: seq<Demand>, head: Demand, r: Round, n: nat)
    requires |r.plans| == |es| && n <= |es| && OntoFairShare(c, fair, head)
    requires forall i :: 0 <= i < n ==> es[i] == head
    ensures var q := Category1(c, fair, es, r, n);
      q.left == r.left - n && q.unused == r.unused - Times(n, fair)
  {
    if n > 0 { CountedOut(c, fair, es, head, r, n - 1); }
  }

  /** Category 2 plans them the fair share once more, and counts them out once more. */
  lemma {:induction false} CountedOutAgain(c: Settings, fair: real, es: seq<Demand>, head: Demand, r: Round, n: nat)
    requires |r.plans| == |es| && n <= |es| && OntoFairShare(c, fair, head)
    requires r.left >= 0 && r.unused == Times(r.left, fair)
    requires forall i :: 0 <= i < n ==> es[i] == head && r.plans[i].throughput == fair
    ensures var q := Category2(c, fair, es, r, n);
      && q.left == r.left - n && q.unused == r.unused - Times(n, fair)
      && (forall i :: 0 <= i < n ==> q.plans[i].throughput == fair)
      && (forall i :: n <= i < |es| ==> q.plans[i] == r.plans[i])
  {
    if n > 0 {
      CountedOutAgain(c, fair, es, head, r, n - 1);
      if r.left == n { assert Times(n, fair) == Times(n - 1, fair) + fair; }
    }
  }

  lemma {:induction false} TimesTogether(a: nat, b: nat, x: real)
    ensures Times(a + b, x) == Times(a, x) + Times(b, x)
  {
    if b > 0 { TimesTogether(a, b - 1, x); }
  }

  lemma CrowdTagged(c: Settings, fair: real, head: Demand, k: nat, next: Demand, b: Demand, j: nat, r: Round)
    requires OntoFairShare(c, fair, head) && Stepping(c, fair, next) && Busy(c, fair, b) && |r.plans| == k + 1 + j
    ensures var q := Category1(c, fair, Crowd(head, k, next, b, j), r, k + 1 + j);
      forall i :: 0 <= i < k + 1 + j ==> q.plans[i].throughput == fair
  {
    var es := Crowd(head, k, next, b, j);
    Category1Shape(c, fair, es, r, k + 1 + j);
    forall i | 0 <= i < k + 1 + j ensures FirstPlan(c, fair, es[i], r.plans[i]).throughput == fair {
      assert es[i] == if i < k then head else if i == k then next else b;
    }
  }

  /** After category 1 there is the fair share for each flow that is left, counted without the first ones. */
  lemma {:induction false} CrowdFirst(c: Settings, fair: real, head: Demand, k: nat, next: Demand, b: Demand, j: nat,
                                      was: seq<Plan>)
    requires OntoFairShare(c, fair, head) && Stepping(c, fair, next) && Busy(c, fair, b)
    requires |was| == k + 1 + j && Times(k + 1 + j, fair) == c.throughput
    ensures var es := Crowd(head, k, next, b, j);
      var r := Category1(c, fair, es, Round(was, k + 1 + j, c.throughput), k + 1 + j);
      r.left == j + 1 && r.unused == Times(j + 1, fair) && forall i :: 0 <= i < k + 1 + j ==> r.plans[i].throughput == fair
  {
    var es, r, n := Crowd(head, k, next, b, j), Round(was, k + 1 + j, c.throughput), k + 1 + j;
    CountedOut(c, fair, es, head, r, k);
    var p := Category1(c, fair, es, r, k + 1);
    assert p.left == j + 1 && p.unused == Category1(c, fair, es, r, k).unused;
    PassedOn(c, fair, es, r, b, k + 1, n);
    TimesTogether(k, j + 1, fair);
    CrowdTagged(c, fair, head, k, next, b, j, r);
  }

  /** Category 2 steps the flow after them above the fair share, as none seems left. */
  lemma {:induction false} CrowdSecond(c: Settings, fair: real, head: Demand, k: nat, next: Demand, b: Demand, j: nat, r: Round)
    requires OntoFairShare(c, fair, head) && Stepping(c, fair, next) && Busy(c, fair, b) && j < k
    requires |r.plans| == k + 1 + j && r.left == j + 1 && r.unused == Times(j + 1, fair)
    requires forall i :: 0 <= i < k + 1 + j ==> r.plans[i].throughput == fair
    ensures var es := Crowd(head, k, next, b, j);
      var q := Category2(c, fair, es, r, k + 1 + j);
      && q.left <= 0 && q.unused == Times(j + 1, fair) - Times(k, fair) - (next.current + c.incrementalStep)
      && q.plans[k] == Stepped(c, next) && forall i :: 0 <= i < k + 1 + j && i != k ==> q.plans[i].throughput == fair
  {
    var es, n := Crowd(head, k, next, b, j), k + 1 + j;
    CountedOutAgain(c, fair, es, head, r, k);
    var p := Category2(c, fair, es, r, k);
    assert p.left == j + 1 - k && p.plans[k].throughput == fair;
    assert Category2(c, fair, es, r, k + 1)
        == Round(p.plans[k := Stepped(c, next)], p.left - 1, p.unused - Stepped(c, next).throughput);
    PassedOver(c, fair, es, r, b, k + 1, n);
  }

  lemma {:induction false} CrowdShared(c: Settings, fair: real, head: Demand, k: nat, next: Demand, b: Demand, j: nat, was: seq<Plan>)
    requires OntoFairShare(c, fair, head) && Stepping(c, fair, next) && Busy(c, fair, b) && j < k && fair >= 0.0
    requires |was| == k + 1 + j && Times(k + 1 + j, fair) == c.throughput && c.minActivityThreshold >= 0.0
    ensures var es := Crowd(head, k, next, b, j);
      ActiveSum(c, es, Replan(c, fair, es, was, c.throughput), k + 1 + j)
      == c.throughput + (next.current + c.incrementalStep - fair)
  {
    var es, n := Crowd(head, k, next, b, j), k + 1 + j;
    var r := Category1(c, fair, es, Round(was, n, c.throughput), n);
    CrowdFirst(c, fair, head, k, next, b, j, was);
    CrowdSecond(c, fair, head, k, next, b, j, r);
    var q := Category2(c, fair, es, r, n);
    TimesMonotone(j + 1, k, fair);
    assert Replan(c, fair, es, was, c.throughput) == q.plans;
    CrowdSum(c, fair, head, k, next, b, j, q.plans);
    TimesTogether(k, j + 1, fair);
  }

  lemma {:induction false} CrowdSum(c: Settings, fair: real, head: Demand, k: nat, next: Demand, b: Demand, j: nat, plans: seq<Plan>)
    requires OntoFairShare(c, fair, head) && Stepping(c, fair, next) && Busy(c, fair, b) && |plans| == k + 1 + j
    requires plans[k] == Stepped(c, next) && forall i :: 0 <= i < k + 1 + j && i != k ==> plans[i].throughput == fair
    ensures ActiveSum(c, Crowd(head, k, next, b, j), plans, k + 1 + j)
         == Times(k, fair) + (next.current + c.incrementalStep) + Times(j, fair)
  {
    var es := Crowd(head, k, next, b, j);
    SumFrom(c, es, plans, fair, 0, k);
    assert ActiveSum(c, es, plans, 0) == 0.0;
    assert ActiveSum(c, es, plans, k + 1) == ActiveSum(c, es, plans, k) + (next.current + c.incrementalStep);
    SumFrom(c, es, plans, fair, k + 1, k + 1 + j);
  }

  /** Flows measured one step below the fair share are counted out twice: with more of them than saturated
      flows after, a flow in between steps above the fair share at nobody's expense. */
  lemma OntoFairShareOvercommits(c: Settings, head: Demand, k: nat, next: Demand, b: Demand, j: nat, was: seq<Plan>)
    requires j < k && |was| == k + 1 + j && c.throughput >= 0.0 && c.minActivityThreshold >= 0.0
    requires var fair := c.throughput / (k + 1 + j) as real;
      OntoFairShare(c, fair, head) && Stepping(c, fair, next) && Busy(c, fair, b)
    ensures var ds := Crowd(head, k, next, b, j);
      var fair := FairShare(c, ds);
      && fair == c.throughput / (k + 1 + j) as real && Evaluated(fair, ds) == ds
      && ActiveSum(c, ds, Replan(c, fair, ds, was, Unused(c, fair, ds)), k + 1 + j)
         == c.throughput + (next.current + c.incrementalStep - fair) > c.throughput
  {
    var m: nat := k + 1 + j;
    var fair := c.throughput / m as real;
    CrowdEvaluated(c, fair, head, k, next, b, j);
    FairShareIs(c, Crowd(head, k, next, b, j), m);
    TimesQuotient(c.throughput, m);
    NotNegative(c.throughput, m as real);
    CrowdShared(c, fair, head, k, next, b, j, was);
  }

  // ----- Inputs

  const IDLE := Demand(0.0, 0.0, 0.0, 0.0, 1000.0, true)
  const BUSY := Demand(1000.0, 0.0, 0.0, 0.0, 1000.0, true)

  /** With the default tuning the rate for inactive flows is the fair share of five flows, a fifth of the
      capacity: with an idle flow before them, they are planned 1212.5 on a segment of 1000. */
  lemma DefaultTuningOvercommits()
    ensures var c := SettingsFor(DEFAULT_TUNING, 1000.0);
      var ds := [IDLE, BUSY, BUSY, BUSY, BUSY, BUSY];
      var fair := FairShare(c, ds);
      && Evaluated(fair, ds) == ds && c.maxBwPerInactiveFlow == fair
      && ActiveSum(c, ds, Replan(c, fair, ds, Blank(6), Unused(c, fair, ds)), 6) == 1212.5
  {
    var c := SettingsFor(DEFAULT_TUNING, 1000.0);
    assert [IDLE] + Alike(BUSY, 5) == [IDLE, BUSY, BUSY, BUSY, BUSY, BUSY];
    assert Stepped(c, IDLE).throughput == 30.0;
    assert ShareOfRest(c, IDLE, 5) == 242.5;
    InactiveRateIsFairShareOvercommits(c, IDLE, BUSY, 5, Blank(6));
    TimesIsProduct(5, 242.5);
  }

  /** A flow at 170 steps onto the rate for inactive flows: with a saturated one, 1200 is planned on 1000. */
  lemma StepOntoInactiveRateOvercommits()
    ensures var c := SettingsFor(DEFAULT_TUNING, 1000.0);
      var head := Demand(170.0, 0.0, 0.0, 0.0, 1000.0, true);
      var ds := [head, BUSY];
      var fair := FairShare(c, ds);
      && Evaluated(fair, ds) == ds && c.maxBwPerInactiveFlow != fair
      && ActiveSum(c, ds, Replan(c, fair, ds, Blank(2), Unused(c, fair, ds)), 2) == 1200.0
  {
    var c := SettingsFor(DEFAULT_TUNING, 1000.0);
    var head := Demand(170.0, 0.0, 0.0, 0.0, 1000.0, true);
    assert [head] + Alike(BUSY, 1) == [head, BUSY];
    OntoInactiveRateOvercommits(c, head, BUSY, 2, Blank(2));
  }

  /** One flow a step below the fair share and one that steps above it: 205 is planned on 200. */
  lemma StepOntoFairShareOvercommits()
    ensures var c := Settings(200.0, 20.0, 1.0, 10.0, 1.0, 1.0, 1.0);
      var head, next := Demand(90.0, 0.0, 0.0, 0.0, 1000.0, true), Demand(95.0, 0.0, 0.0, 0.0, 1000.0, true);
      var fair := FairShare(c, [head, next]);
      && Evaluated(fair, [head, next]) == [head, next] && c.maxBwPerInactiveFlow != fair
      && ActiveSum(c, [head, next], Replan(c, fair, [head, next], Blank(2), Unused(c, fair, [head, next])), 2) == 205.0
  {
    var c := Settings(200.0, 20.0, 1.0, 10.0, 1.0, 1.0, 1.0);
    var head, next := Demand(90.0, 0.0, 0.0, 0.0, 1000.0, true), Demand(95.0, 0.0, 0.0, 0.0, 1000.0, true);
    assert Crowd(head, 1, next, BUSY, 0) == [head, next];
    OntoFairShareOvercommits(c, head, 1, next, BUSY, 0, Blank(2));
  }
}
