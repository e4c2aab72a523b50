/** The packet loss of a flow over its segments: when it does not depend on the order in which the segment
    map is visited, and when it is a loss in percent. */
module NetCharLoss {
  import opened SegmentAlgorithm
  import opened NetCharAlgorithm

  // ----- Two segments

  /** Losses are in percent, but are composed as if they were fractions: over two lossy segments the result is
      the percentage lost only on one curve, is less than that of the first alone if the second loses
      more than one percent, and is no loss at all or less if it loses two or more. */
  lemma LossInPercentExactly(a: real, b: real)
    requires a > 0.0 && b > 0.0
    ensures LossStep(a, b) == a + b - a * b / 100.0 <==> 100.0 * (a - b) == 99.0 * a * b
    ensures LossStep(a, b) < a <==> b > 1.0
    ensures LossStep(a, b) == 0.0 <==> b == 2.0
    ensures LossStep(a, b) < 0.0 <==> b > 2.0
  {
    var p := a * b;
    LossStepIs(a, b);
    Signs(a, 1.0 - b);
    Signs(a, 2.0 - b);
    assert a * (1.0 - b) == a - p && a * (2.0 - b) == 2.0 * a - p && 99.0 * a * b == 99.0 * p;
  }

  lemma LossStepIs(have: real, loss: real)
    requires have != 0.0 && loss != 0.0
    ensures LossStep(have, loss) == have * (2.0 - loss)
  {
    assert have * (2.0 - loss) == have + have * (1.0 - loss);
  }

  lemma Signs(a: real, x: real)
    requires a > 0.0
    ensures (a * x > 0.0 <==> x > 0.0) && (a * x == 0.0 <==> x == 0.0) && (a * x < 0.0 <==> x < 0.0)
  {
  }

  // ----- Any number of segments

  /** An order in which the segments can be visited. */
  ghost predicate Orders(segments: set<Segment>, order: seq<Segment>) {
    && Distinct(order)
    && (forall i :: 0 <= i < |order| ==> order[i] in segments)
    && (forall s :: s in segments ==> s in order)
  }

  lemma {:induction false} SomeOrderOf(segments: set<Segment>) returns (order: seq<Segment>)
    ensures Orders(segments, order)
    decreases segments
  {
    if segments == {} {
      order := [];
    } else {
      var s :| s in segments;
      order := SomeOrderOf(segments - {s});
      order := order + [s];
    }
  }

  /** A segment on which the flow loses packets. */
  ghost predicate Loses(s: Segment, f: Flow)
    reads s`flows
  {
    f in s.flows && s.netChar.packetLoss != 0.0
  }

  ghost function LossAfter(have: real, s: Segment, f: Flow): real
    reads s`flows
  {
    if f in s.flows then LossStep(have, s.netChar.packetLoss) else have
  }

  lemma LossMore(order: seq<Segment>, s: Segment, f: Flow)
    ensures LossAlong(order + [s], f) == LossAfter(LossAlong(order, f), s, f)
  {
    assert (order + [s])[..|order|] == order;
  }

  /** A flow loses the same on all segments on which it loses packets. */
  ghost predicate LosesAlike(segments: set<Segment>, f: Flow)
    reads segments`flows
  {
    forall s, t :: s in segments && t in segments && Loses(s, f) && Loses(t, f) ==> s.netChar.packetLoss == t.netChar.packetLoss
  }

  /** What is lost after some segments that lose the same. */
  function LossRepeated(x: real, n: nat): real {
    if n == 0 then 0.0 else LossStep(LossRepeated(x, n - 1), x)
  }

  ghost function Lossy(segments: set<Segment>, f: Flow): set<Segment>
    reads segments`flows
  {
    set s | s in segments && Loses(s, f)
  }

  lemma {:induction false} LossWhenAlike(segments: set<Segment>, order: seq<Segment>, f: Flow, x: real)
    requires Orders(segments, order)
    requires forall s :: s in segments && Loses(s, f) ==> s.netChar.packetLoss == x
    ensures LossAlong(order, f) == LossRepeated(x, |Lossy(segments, f)|)
    decreases |order|
  {
    if order == [] {
      assert segments == {};
      assert Lossy(segments, f) == {};
    } else {
      var n := |order| - 1;
      LastOf(segments, order);
      LossWhenAlike(segments - {order[n]}, order[..n], f, x);
      LossMore(order[..n], order[n], f);
      LossyWithout(segments, order[n], f);
    }
  }

  lemma LastOf(segments: set<Segment>, order: seq<Segment>)
    requires Orders(segments, order) && order != []
    ensures var n := |order| - 1;
      order[n] in segments && Orders(segments - {order[n]}, order[..n]) && order[..n] + [order[n]] == order
  {
  }

  lemma LossyWithout(segments: set<Segment>, s: Segment, f: Flow)
    requires s in segments
    ensures |Lossy(segments, f)| == |Lossy(segments - {s}, f)| + if Loses(s, f) then 1 else 0
  {
    var less := Lossy(segments - {s}, f);
    if Loses(s, f) {
      assert Lossy(segments, f) == less + {s};
    } else {
      assert Lossy(segments, f) == less;
    }
  }

  lemma SameWhenAlike(segments: set<Segment>, p: seq<Segment>, q: seq<Segment>, f: Flow)
    requires LosesAlike(segments, f) && Orders(segments, p) && Orders(segments, q)
    ensures LossAlong(p, f) == LossAlong(q, f)
  {
    var x := 0.0;
    if s :| s in segments && Loses(s, f) { x := s.netChar.packetLoss; }
    LossWhenAlike(segments, p, f, x);
    LossWhenAlike(segments, q, f, x);
  }

  // ----- Losses that differ

  lemma {:induction false} DifferStays(p: seq<Segment>, q: seq<Segment>, rest: seq<Segment>, f: Flow)
    requires LossAlong(p, f) != 0.0 && LossAlong(q, f) != 0.0 && LossAlong(p, f) != LossAlong(q, f)
    requires forall i :: 0 <= i < |rest| ==> !(Loses(rest[i], f) && rest[i].netChar.packetLoss == 2.0)
    ensures LossAlong(p + rest, f) != 0.0 && LossAlong(q + rest, f) != 0.0
    ensures LossAlong(p + rest, f) != LossAlong(q + rest, f)
    decreases |rest|
  {
    if rest == [] {
      assert p + rest == p && q + rest == q;
    } else {
      var n := |rest| - 1;
      DifferStays(p, q, rest[..n], f);
      assert p + rest == (p + rest[..n]) + [rest[n]] && q + rest == (q + rest[..n]) + [rest[n]];
      LossMore(p + rest[..n], rest[n], f);
      LossMore(q + rest[..n], rest[n], f);
      if Loses(rest[n], f) {
        StepDiffers(LossAlong(p + rest[..n], f), LossAlong(q + rest[..n], f), rest[n].netChar.packetLoss);
      }
    }
  }

  lemma StepDiffers(x: real, y: real, loss: real)
    requires x != 0.0 && y != 0.0 && x != y && loss != 0.0 && loss != 2.0
    ensures LossStep(x, loss) != 0.0 && LossStep(y, loss) != 0.0 && LossStep(x, loss) != LossStep(y, loss)
  {
    LossStepIs(x, loss);
    LossStepIs(y, loss);
    Apart(x, y, 2.0 - loss, LossStep(x, loss), LossStep(y, loss));
  }

  lemma Apart(x: real, y: real, z: real, a: real, b: real)
    requires x != 0.0 && y != 0.0 && x != y && z != 0.0 && a == x * z && b == y * z
    ensures a != 0.0 && b != 0.0 && a != b
  {
    NoZero(x, z);
    NoZero(y, z);
    NoZero(x - y, z);
    LessOf(x, y, z);
  }

  lemma LessOf(x: real, y: real, z: real)
    ensures (x - y) * z == x * z - y * z
  {
  }

  lemma NoZero(x: real, y: real)
    requires x != 0.0 && y != 0.0
    ensures x * y != 0.0
  {
  }

  lemma TwoAhead(s: Segment, t: Segment, f: Flow)
    requires Loses(s, f) && Loses(t, f) && s.netChar.packetLoss != t.netChar.packetLoss
    requires s.netChar.packetLoss != 2.0 && t.netChar.packetLoss != 2.0
    ensures LossAlong([s] + [t], f) != 0.0 && LossAlong([t] + [s], f) != 0.0
    ensures LossAlong([s] + [t], f) != LossAlong([t] + [s], f)
  {
    LossAtFirst(s, f);
    LossAtFirst(t, f);
    LossMore([s], t, f);
    LossMore([t], s, f);
    PairDiffers(s.netChar.packetLoss, t.netChar.packetLoss);
  }

  lemma LossAtFirst(s: Segment, f: Flow)
    requires Loses(s, f)
    ensures LossAlong([s], f) == s.netChar.packetLoss
  {
    assert LossAlong([], f) == 0.0 && [] + [s] == [s];
    LossMore([], s, f);
  }

  lemma PairDiffers(a: real, b: real)
    requires a != 0.0 && b != 0.0 && a != 2.0 && b != 2.0 && a != b
    ensures LossStep(a, b) != 0.0 && LossStep(b, a) != 0.0 && LossStep(a, b) != LossStep(b, a)
  {
    LossDependsOnOrder(a, b);
    StepKeepsLoss(a, b);
    StepKeepsLoss(b, a);
    assert LossStep(0.0, a) == a && LossStep(0.0, b) == b;
  }

  lemma TwoBehind(rest: seq<Segment>, w: Segment, u: Segment, f: Flow)
    requires Loses(w, f) && w.netChar.packetLoss != 2.0 && Loses(u, f) && u.netChar.packetLoss == 2.0
    ensures LossAlong(rest + [w] + [u], f) == 0.0 && LossAlong(rest + [u] + [w], f) != 0.0
  {
    LossMore(rest, w, f);
    LossMore(rest + [w], u, f);
    LossMore(rest + [u], w, f);
    StepKeepsLoss(LossAlong(rest, f), w.netChar.packetLoss);
    StepKeepsLoss(LossAlong(rest + [u], f), w.netChar.packetLoss);
    LossStepIs(LossAlong(rest + [w], f), 2.0);
  }

  lemma StepKeepsLoss(have: real, loss: real)
    requires loss != 0.0 && loss != 2.0
    ensures LossStep(have, loss) != 0.0
  {
    if have != 0.0 {
      LossStepIs(have, loss);
      NoZero(have, 2.0 - loss);
    }
  }

  lemma PairOrders(segments: set<Segment>, s: Segment, t: Segment, rest: seq<Segment>)
    requires s in segments && t in segments && s != t && Orders(segments - {s, t}, rest)
    ensures Orders(segments, [s] + [t] + rest) && Orders(segments, rest + [s] + [t])
  {
    forall u | u in segments ensures u in [s] + [t] + rest && u in rest + [s] + [t] {
      if u != s && u != t { assert u in rest; }
    }
  }

  /** A segment that loses two percent undoes what was lost before it, and nothing after it. */
  lemma DifferBehind(segments: set<Segment>, f: Flow, w: Segment, u: Segment) returns (p: seq<Segment>, q: seq<Segment>)
    requires w in segments && u in segments && Loses(w, f) && Loses(u, f)
    requires w.netChar.packetLoss != 2.0 && u.netChar.packetLoss == 2.0
    ensures Orders(segments, p) && Orders(segments, q) && LossAlong(p, f) != LossAlong(q, f)
  {
    var rest := SomeOrderOf(segments - {w, u});
    PairOrders(segments, w, u, rest);
    assert segments - {w, u} == segments - {u, w};
    PairOrders(segments, u, w, rest);
    TwoBehind(rest, w, u, f);
    p, q := rest + [w] + [u], rest + [u] + [w];
  }

  lemma DifferAhead(segments: set<Segment>, f: Flow, s: Segment, t: Segment) returns (p: seq<Segment>, q: seq<Segment>)
    requires s in segments && t in segments && Loses(s, f) && Loses(t, f) && s.netChar.packetLoss != t.netChar.packetLoss
    requires forall u :: u in segments && Loses(u, f) ==> u.netChar.packetLoss != 2.0
    ensures Orders(segments, p) && Orders(segments, q) && LossAlong(p, f) != LossAlong(q, f)
  {
    var rest := SomeOrderOf(segments - {s, t});
    PairOrders(segments, s, t, rest);
    assert segments - {s, t} == segments - {t, s};
    PairOrders(segments, t, s, rest);
    TwoAhead(s, t, f);
    DifferStays([s] + [t], [t] + [s], rest, f);
    p, q := [s] + [t] + rest, [t] + [s] + rest;
  }

  /** Where losses differ two orders differ. */
  lemma TwoOrdersDiffer(segments: set<Segment>, f: Flow) returns (p: seq<Segment>, q: seq<Segment>)
    requires !LosesAlike(segments, f)
    ensures Orders(segments, p) && Orders(segments, q) && LossAlong(p, f) != LossAlong(q, f)
  {
    var s, t :| s in segments && t in segments && Loses(s, f) && Loses(t, f)
                && s.netChar.packetLoss != t.netChar.packetLoss;
    if u :| u in segments && Loses(u, f) && u.netChar.packetLoss == 2.0 {
      p, q := DifferBehind(segments, f, if s.netChar.packetLoss != 2.0 then s else t, u);
    } else {
      p, q := DifferAhead(segments, f, s, t);
    }
  }

  /** The packet loss of a flow is the same in all orders of visiting the segments if and only if it loses
      the same on all segments on which it loses packets. */
  lemma LossSameExactly(segments: set<Segment>, f: Flow)
    ensures (forall p, q :: Orders(segments, p) && Orders(segments, q) ==> LossAlong(p, f) == LossAlong(q, f))
            <==> LosesAlike(segments, f)
  {
    if LosesAlike(segments, f) {
      forall p, q | Orders(segments, p) && Orders(segments, q) ensures LossAlong(p, f) == LossAlong(q, f) {
        SameWhenAlike(segments, p, q, f);
      }
    } else {
      var p, q := TwoOrdersDiffer(segments, f);
    }
  }
}
