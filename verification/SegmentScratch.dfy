/** The plan fields of a flow are scratch: what they held before a segment is evaluated does
    not show in the rates it plans, nor, when the flows are orderly, in the bounds. */
module SegmentScratch {
  import opened SegmentShares
  import opened SegmentConservation

  /** The two rounds agree on everything but bounds. */
  ghost predicate Alike(a: Round, b: Round) {
    && a.left == b.left && a.unused == b.unused && |a.plans| == |b.plans|
    && forall k :: 0 <= k < |a.plans| ==> a.plans[k].throughput == b.plans[k].throughput
  }

  lemma {:induction false} Category1Scratch(c: Settings, fair: real, es: seq<Demand>, a: Round, b: Round, n: nat)
    requires |a.plans| == |b.plans| == |es| && n <= |es| && a.left == b.left && a.unused == b.unused
    ensures var p, q := Category1(c, fair, es, a, n), Category1(c, fair, es, b, n);
      && p.left == q.left && p.unused == q.unused
      && (forall k :: 0 <= k < n ==> p.plans[k].throughput == q.plans[k].throughput)
      && (forall k :: 0 <= k < n && KindOf(c, fair, es[k]) == First ==> p.plans[k] == q.plans[k])
  {
    if n > 0 { Category1Scratch(c, fair, es, a, b, n - 1); }
  }

  lemma {:induction false} Category2Scratch(c: Settings, fair: real, es: seq<Demand>, a: Round, b: Round, n: nat)
    requires |a.plans| == |es| && n <= |es| && Alike(a, b)
    ensures var p, q := Category2(c, fair, es, a, n), Category2(c, fair, es, b, n);
      && Alike(p, q)
      && (forall k :: 0 <= k < |es| && a.plans[k] == b.plans[k] ==> p.plans[k] == q.plans[k])
      && (forall k :: n <= k < |es| ==> p.plans[k] == a.plans[k])
      && (forall k :: 0 <= k < n && a.plans[k].throughput == fair && es[k].current < fair ==> p.plans[k] == q.plans[k])
  {
    if n > 0 { Category2Scratch(c, fair, es, a, b, n - 1); }
  }

  lemma {:induction false} Category3Scratch(c: Settings, fair: real, es: seq<Demand>, a: Round, b: Round,
                                            extra: real, n: nat)
    requires |a.plans| == |es| && n <= |es| && Alike(a, b)
    ensures var p, q := Category3(c, fair, es, a, extra, n), Category3(c, fair, es, b, extra, n);
      && Alike(p, q)
      && (forall k :: 0 <= k < |es| && a.plans[k] == b.plans[k] ==> p.plans[k] == q.plans[k])
      && (forall k :: n <= k < |es| ==> p.plans[k] == a.plans[k])
      && (forall k :: 0 <= k < n && a.plans[k].throughput == fair && es[k].current >= fair ==> p.plans[k] == q.plans[k])
  {
    if n > 0 { Category3Scratch(c, fair, es, a, b, extra, n - 1); }
  }

  lemma SameExtra(fair: real, a: Round, b: Round)
    requires a.left == b.left && a.unused == b.unused
    ensures Extra(fair, a) == Extra(fair, b)
  {
  }

  lemma Categories23Scratch(c: Settings, fair: real, es: seq<Demand>, a: Round, b: Round)
    requires |a.plans| == |es| && Alike(a, b)
    ensures var p, q := Categories23(c, fair, es, a), Categories23(c, fair, es, b);
      && Alike(p, q)
      && (forall k :: 0 <= k < |es| && a.plans[k] == b.plans[k] ==> p.plans[k] == q.plans[k])
  {
    var n := |es|;
    Category2Scratch(c, fair, es, a, b, n);
    var a2, b2 := Category2(c, fair, es, a, n), Category2(c, fair, es, b, n);
    SameExtra(fair, a2, b2);
    Category3Scratch(c, fair, es, a2, b2, Extra(fair, a2), n);
  }

  lemma SharedScratch(c: Settings, fair: real, es: seq<Demand>, was: seq<Plan>, was': seq<Plan>, unused: real)
    requires |was| == |was'| == |es|
    ensures Alike(Shared(c, fair, es, was, unused), Shared(c, fair, es, was', unused))
  {
    var n := |es|;
    var a, b := Round(was, n, unused), Round(was', n, unused);
    Category1Scratch(c, fair, es, a, b, n);
    Categories23Scratch(c, fair, es, Category1(c, fair, es, a, n), Category1(c, fair, es, b, n));
  }

  /** For every input, orderly or not, the planned rates do not depend on the old plan fields. */
  lemma PlannedRatesAreScratch(c: Settings, fair: real, es: seq<Demand>, was: seq<Plan>, was': seq<Plan>,
                               unused: real, k: nat)
    requires |was| == |was'| == |es| && k < |es|
    ensures Replan(c, fair, es, was, unused)[k].throughput == Replan(c, fair, es, was', unused)[k].throughput
  {
    SharedScratch(c, fair, es, was, was', unused);
    ResidualShape(c, fair, es, Shared(c, fair, es, was, unused).plans, |es|);
    ResidualShape(c, fair, es, Shared(c, fair, es, was', unused).plans, |es|);
  }

  /** With orderly flows every field of the plan is written before it is read. */
  lemma PlansAreScratch(c: Settings, fair: real, es: seq<Demand>, was: seq<Plan>, was': seq<Plan>, unused: real)
    requires |was| == |was'| == |es| && Orderly(c, fair, es)
    ensures Replan(c, fair, es, was, unused) == Replan(c, fair, es, was', unused)
  {
    var n := |es|;
    SharedScratch(c, fair, es, was, was', unused);
    var r, s := Shared(c, fair, es, was, unused), Shared(c, fair, es, was', unused);
    forall k | 0 <= k < n ensures r.plans[k] == s.plans[k] {
      SharedPlanIsScratch(c, fair, es, was, was', unused, k);
    }
    ResidualShape(c, fair, es, r.plans, n);
    ResidualShape(c, fair, es, s.plans, n);
  }

  lemma SharedPlanIsScratch(c: Settings, fair: real, es: seq<Demand>, was: seq<Plan>, was': seq<Plan>, unused: real,
                            k: nat)
    requires |was| == |was'| == |es| && Orderly(c, fair, es) && k < |es|
    ensures Shared(c, fair, es, was, unused).plans[k] == Shared(c, fair, es, was', unused).plans[k]
  {
    var n := |es|;
    var a, b := Round(was, n, unused), Round(was', n, unused);
    Category1Scratch(c, fair, es, a, b, n);
    AfterCategory1(c, fair, es, was, unused);
    var a1, b1 := Category1(c, fair, es, a, n), Category1(c, fair, es, b, n);
    if KindOf(c, fair, es[k]) == First {
      Categories23Scratch(c, fair, es, a1, b1);
    } else {
      LaterPlanIsScratch(c, fair, es, a1, b1, k);
    }
  }

  lemma LaterPlanIsScratch(c: Settings, fair: real, es: seq<Demand>, a: Round, b: Round, k: nat)
    requires Tagged(c, fair, es, a.plans) && Alike(a, b) && k < |es| && KindOf(c, fair, es[k]) != First
    requires a.left == Count(c, fair, es, Second, |es|) + Count(c, fair, es, Third, |es|)
    ensures Categories23(c, fair, es, a).plans[k] == Categories23(c, fair, es, b).plans[k]
  {
    var n := |es|;
    KindCounted(c, fair, es, k);
    Category2Scratch(c, fair, es, a, b, n);
    Category2Shape(c, fair, es, a, n);
    var a2, b2 := Category2(c, fair, es, a, n), Category2(c, fair, es, b, n);
    SameExtra(fair, a2, b2);
    Category3Scratch(c, fair, es, a2, b2, Extra(fair, a2), n);
  }
}
