/** The history of round-trip times to a destination: a ring of the latest, and what is computed from it. */
module PingHistory {
  import opened Common

  function Least(s: seq<int>): (m: int)
    requires s != []
    ensures m in s && forall i :: 0 <= i < |s| ==> m <= s[i]
  {
    if |s| == 1 then s[0]
    else
      var m := Least(s[..|s| - 1]);
      if s[|s| - 1] < m then s[|s| - 1] else m
  }

  function Greatest(s: seq<int>): (m: int)
    requires s != []
    ensures m in s && forall i :: 0 <= i < |s| ==> s[i] <= m
  {
    if |s| == 1 then s[0]
    else
      var m := Greatest(s[..|s| - 1]);
      if s[|s| - 1] > m then s[|s| - 1] else m
  }

  // ----- Order does not matter

  function Square(x: int): int {
    x * x
  }

  /** The sum of the squares of how far numbers are from one. */
  function Spread(s: seq<int>, from: int): int {
    if s == [] then 0 else Spread(s[..|s| - 1], from) + Square(s[|s| - 1] - from)
  }

  lemma {:induction false} SpreadAppend(a: seq<int>, b: seq<int>, from: int)
    ensures Spread(a + b, from) == Spread(a, from) + Spread(b, from)
  {
    if b == [] {
      assert a + b == a;
    } else {
      assert (a + b)[..|a + b| - 1] == a + b[..|b| - 1];
      SpreadAppend(a, b[..|b| - 1], from);
    }
  }

  /** A list cut and put together the other way round has the same sum, least and greatest. */
  lemma RotationSame(a: seq<int>, b: seq<int>, from: int)
    requires a + b != []
    ensures Sum(b + a) == Sum(a + b) && Least(b + a) == Least(a + b) && Greatest(b + a) == Greatest(a + b)
    ensures Spread(b + a, from) == Spread(a + b, from)
  {
    SumAppend(a, b);
    SumAppend(b, a);
    SpreadAppend(a, b, from);
    SpreadAppend(b, a, from);
    SameRange(a + b, b + a);
  }

  lemma SameRange(s: seq<int>, t: seq<int>)
    requires s != [] && t != [] && forall x :: x in s <==> x in t
    ensures Least(s) == Least(t) && Greatest(s) == Greatest(t)
  {
    assert Least(s) in t && Least(t) in s && Greatest(s) in t && Greatest(t) in s;
  }

  lemma {:induction false} SumBetween(s: seq<int>, low: int, high: int)
    requires forall i :: 0 <= i < |s| ==> low <= s[i] <= high
    ensures low * |s| <= Sum(s) <= high * |s|
  {
    if s != [] {
      var t := s[..|s| - 1];
      SumBetween(t, low, high);
      OneMore(low, |t|);
      OneMore(high, |t|);
    }
  }

  lemma OneMore(a: int, n: nat)
    ensures a * (n + 1) == a * n + a
  {
  }

  /** The mean of numbers, cut to an integer, lies between the least and the greatest of them. */
  lemma MeanBetween(s: seq<int>)
    requires s != []
    ensures Least(s) <= Trunc(Sum(s) as real / |s| as real) <= Greatest(s)
  {
    SumBetween(s, Least(s), Greatest(s));
    QuotientBetween(Least(s), Sum(s), Greatest(s), |s|);
  }

  lemma QuotientBetween(low: int, total: int, high: int, n: nat)
    requires n > 0 && low * n <= total <= high * n
    ensures low <= Trunc(total as real / n as real) <= high
  {
    var q := total as real / n as real;
    Product(total as real, n as real);
    InReals(low, n);
    InReals(high, n);
    Cancel(low as real, q, n as real);
    Cancel(q, high as real, n as real);
    TruncBetween(low, q, high);
  }

  lemma Product(x: real, n: real)
    requires n > 0.0
    ensures x / n * n == x
  {
  }

  lemma TruncBetween(low: int, x: real, high: int)
    requires low as real <= x <= high as real
    ensures low <= Trunc(x) <= high
  {
  }

  lemma InReals(a: int, n: nat)
    ensures (a * n) as real == a as real * n as real
  {
  }

  lemma Cancel(a: real, b: real, n: real)
    requires n > 0.0 && a * n <= b * n
    ensures a <= b
  {
    assert a * n / n == a && b * n / n == b;
    Divided(a * n, b * n, n);
  }

  lemma Divided(x: real, y: real, n: real)
    requires n > 0.0 && x <= y
    ensures x / n <= y / n
  {
  }

  // ----- The standard deviation that is computed

  /** The greatest natural number whose square is within a number. */
  function Root(k: nat): (n: nat)
    ensures n * n <= k < (n + 1) * (n + 1)
  {
    if k == 0 then 0
    else
      var n := Root(k - 1);
      if (n + 1) * (n + 1) <= k then n + 1 else n
  }

  /** The square root of the mean of a spread, cut to an integer. */
  function RootMean(total: nat, n: nat): int
    requires n > 0
  {
    Root(total / n)
  }

  lemma {:induction false} SpreadIs(s: seq<int>, x: int)
    ensures 0 <= Spread(s, x) == Spread(s, 0) - 2 * x * Sum(s) + |s| * Square(x)
  {
    if s != [] {
      var t, y := s[..|s| - 1], s[|s| - 1];
      SpreadIs(t, x);
      SpreadMore(Spread(t, x), Spread(t, 0), Sum(t), |t|, x, y);
    }
  }

  lemma SpreadMore(around: int, squares: int, total: int, n: nat, x: int, y: int)
    requires 0 <= around == squares - 2 * x * total + n * Square(x)
    ensures 0 <= around + Square(y - x) == squares + Square(y - 0) - 2 * x * (total + y) + (n + 1) * Square(x)
  {
    Binomial(y, x);
    OneMore(Square(x), n);
    Spreads(2 * x, total, y);
  }

  lemma Binomial(y: int, x: int)
    ensures 0 <= Square(y - x) == Square(y - 0) - 2 * x * y + Square(x)
  {
  }

  lemma Spreads(a: int, b: int, c: int)
    ensures a * (b + c) == a * b + a * c
  {
  }

  /** The square of a sum is within the sum of squares, as many times as there are numbers. */
  lemma {:induction false} SumSquared(s: seq<int>)
    ensures Square(Sum(s)) <= |s| * Spread(s, 0)
  {
    if s != [] {
      var t, y := s[..|s| - 1], s[|s| - 1];
      SumSquared(t);
      SpreadIs(t, y);
      StepSquared(|t|, Sum(t), Spread(t, 0), y);
    }
  }

  lemma StepSquared(n: nat, total: int, spread: int, y: int)
    requires Square(total) <= n * spread && 0 <= spread - 2 * y * total + n * Square(y)
    ensures Square(total + y) <= (n + 1) * (spread + Square(y - 0))
  {
    assert Square(total + y) == Square(total) + 2 * y * total + Square(y);
    assert (n + 1) * (spread + Square(y)) == n * spread + n * Square(y) + spread + Square(y);
  }

  /** The mean is not yet set when it is taken off the results: what is computed is the root of the mean
      square, never below the mean, and the results themselves where they are all alike. */
  lemma DeviationAboveMean(s: seq<int>)
    requires s != []
    ensures 0 <= Spread(s, 0)
    ensures var d, mean := RootMean(Spread(s, 0), |s|), Trunc(Sum(s) as real / |s| as real);
      -d <= mean <= d
  {
    SpreadIs(s, 0);
    SumSquared(s);
    TruncWithin(Sum(s), |s|);
    var mean := Trunc(Sum(s) as real / |s| as real);
    RootAbove(mean, Sum(s), Spread(s, 0), |s|);
  }

  /** Taken around zero the spread exceeds that around the mean by at least the square of the mean for each
      result, so what is computed is the deviation around the mean if and only if the mean is zero. */
  lemma DeviationRightExactly(s: seq<int>)
    requires s != []
    ensures var mean := Trunc(Sum(s) as real / |s| as real);
      && 0 <= Spread(s, mean) && Spread(s, mean) + |s| * Square(mean) <= Spread(s, 0)
      && (Spread(s, 0) == Spread(s, mean) <==> mean == 0)
      && RootMean(Spread(s, mean), |s|) <= RootMean(Spread(s, 0), |s|)
  {
    var mean := Trunc(Sum(s) as real / |s| as real);
    TruncWithin(Sum(s), |s|);
    SpreadIs(s, mean);
    Excess(mean, Sum(s), |s|);
    RootMeanGrows(Spread(s, mean), Spread(s, 0), |s|);
  }

  /** What the spread around zero is larger by. */
  lemma Excess(m: int, total: int, n: nat)
    requires n > 0 && ((0 <= m && m * n <= total) || (m <= 0 && (-m) * n <= -total))
    ensures 2 * m * total - n * Square(m) >= n * Square(m)
    ensures 0 <= n * Square(m) && (n * Square(m) == 0 <==> m == 0)
  {
    if m != 0 {
      Regroup(m, n);
      Grows(Square(m), n);
      if m > 0 {
        Ordered(m * n, total, m);
      } else {
        Ordered((-m) * n, -total, -m);
        Negated(m, total, n);
      }
    }
    TwiceProduct(m, total);
  }

  lemma Regroup(m: int, n: nat)
    requires m != 0
    ensures m * n * m == n * Square(m) && Square(m) >= 1
  {
  }

  lemma Negated(m: int, total: int, n: nat)
    ensures (-m) * n * (-m) == m * n * m && (-total) * (-m) == total * m
  {
  }

  lemma TwiceProduct(m: int, total: int)
    ensures 2 * m * total == 2 * (total * m)
  {
  }

  lemma RootMeanGrows(a: nat, b: nat, n: nat)
    requires n > 0 && a <= b
    ensures RootMean(a, n) <= RootMean(b, n)
  {
    QuotientGrows(a, b, n);
    SquareOrder(RootMean(a, n), RootMean(b, n) + 1);
  }

  lemma QuotientGrows(a: nat, b: nat, n: nat)
    requires n > 0 && a <= b
    ensures a / n <= b / n
  {
    QuotientWithin(a, n);
    QuotientAbove(a / n, b, n);
  }

  lemma QuotientWithin(a: nat, n: nat)
    requires n > 0
    ensures a / n >= 0 && n * (a / n) <= a
  {
    assert a == a / n * n + a % n;
  }

  lemma {:induction false} SpreadAlike(s: seq<int>, x: int, from: int)
    requires forall i :: 0 <= i < |s| ==> s[i] == x
    ensures Spread(s, from) == |s| * Square(x - from)
  {
    if s != [] {
      SpreadAlike(s[..|s| - 1], x, from);
      OneMore(Square(x - from), |s| - 1);
    }
  }

  lemma AlikeDeviation(s: seq<int>, x: nat)
    requires s != [] && forall i :: 0 <= i < |s| ==> s[i] == x
    ensures Spread(s, x) == 0 && Spread(s, 0) >= 0 && RootMean(Spread(s, 0), |s|) == x
  {
    SpreadAlike(s, x, x);
    SpreadAlike(s, x, 0);
    Exact(Square(x), |s|);
    RootUnique(Square(x), x);
  }

  lemma Exact(a: nat, n: nat)
    requires n > 0
    ensures (n * a) / n == a
  {
    ModIs(n * a, a, 0, n);
    Shortened(a, (n * a) / n, n);
    Shortened((n * a) / n, a, n);
  }

  lemma RootUnique(k: nat, n: nat)
    requires n * n <= k < (n + 1) * (n + 1)
    ensures Root(k) == n
  {
    SquareOrder(Root(k), n + 1);
    SquareOrder(n, Root(k) + 1);
  }

  lemma SquareOrder(a: nat, b: nat)
    requires a * a < b * b
    ensures a < b
  {
    if a >= b { Ordered(b, a, b); Ordered(b, a, a); }
  }

  /** The mean cut to an integer, as often as there are numbers, is within their sum. */
  lemma TruncWithin(total: int, n: nat)
    requires n > 0
    ensures var m := Trunc(total as real / n as real);
      (0 <= m && m * n <= total) || (m <= 0 && (-m) * n <= -total)
  {
    if total >= 0 {
      FloorWithin(total, n);
    } else {
      FloorWithin(-total, n);
      assert -(total as real / n as real) == (-total) as real / n as real;
    }
  }

  lemma FloorWithin(total: nat, n: nat)
    requires n > 0
    ensures var q := total as real / n as real; q >= 0.0 && q.Floor * n <= total
  {
    var q := total as real / n as real;
    Product(total as real, n as real);
    Divided(0.0, total as real, n as real);
    InReals(q.Floor, n);
    Multiplied(q.Floor as real, q, n as real);
  }

  lemma Multiplied(a: real, b: real, n: real)
    requires n > 0.0 && a <= b
    ensures a * n <= b * n
  {
  }

  lemma RootAbove(m: int, total: int, spread: nat, n: nat)
    requires n > 0 && Square(total) <= n * spread
    requires (0 <= m && m * n <= total) || (m <= 0 && (-m) * n <= -total)
    ensures -RootMean(spread, n) <= m <= RootMean(spread, n)
  {
    var a, b: nat := if m < 0 then -m else m, if m < 0 || total < 0 then -total else total;
    MeanSquared(a, b, spread, n);
    SquareOrder(a, RootMean(spread, n) + 1);
  }

  lemma MeanSquared(a: nat, b: nat, spread: nat, n: nat)
    requires n > 0 && a * n <= b && b * b <= n * spread
    ensures a * a <= spread / n
  {
    var c := a * n;
    assert c * c <= c * b <= b * b;
    assert c * c == n * (a * a * n);
    Shortened(a * a * n, spread, n);
    QuotientAbove(a * a, spread, n);
  }

  lemma Shortened(x: int, y: int, n: nat)
    requires n > 0 && n * x <= n * y
    ensures x <= y
  {
    Distribute(x, y, n);
    if x > y { Grows(x - y, n); }
  }

  lemma Ordered(a: int, b: int, n: nat)
    requires a <= b
    ensures a * n <= b * n
  {
  }

  lemma QuotientAbove(x: nat, y: nat, n: nat)
    requires n > 0 && x * n <= y
    ensures x <= y / n
  {
    assert y == n * (y / n) + y % n;
    if x >= y / n + 1 { Ordered(y / n + 1, x, n); }
  }

  // ----- The ring

  function Window(all: seq<int>, capacity: nat): seq<int> {
    if |all| <= capacity then all else all[|all| - capacity..]
  }

  /** The ring holds the latest results, the oldest at the place to be written next once it is full. */
  ghost predicate IsRing(ring: seq<int>, all: seq<int>)
    requires ring != []
  {
    if |all| < |ring| then ring[..|all|] == all
    else IsTurned(ring, Window(all, |ring|), Place(|all|, |ring|))
  }

  /** The place in a ring of n after some steps from the first. */
  function Place(steps: nat, n: nat): (p: nat)
    requires n > 0
    ensures p < n
  {
    if steps < n then steps else Place(steps - n, n)
  }

  /** The ring is the list turned by p places. */
  predicate IsTurned(ring: seq<int>, w: seq<int>, p: nat) {
    p < |ring| == |w| && ring == w[|ring| - p..] + w[..|ring| - p]
  }

  datatype Stat = Stat(pktSent: int, pktLoss: real, last: int, best: int, worst: int, mean: int, stddev: int)

  /** Nanoseconds in milliseconds, rounded half away from zero. */
  function Millis(rtt: int): (ms: int)
    ensures -500000 <= ms * 1000000 - rtt <= 500000
  {
    if rtt >= 0 then (rtt + 500000) / 1000000 else -((500000 - rtt) / 1000000)
  }

  /** The part of what was sent that was lost. */
  function LossOf(lost: nat, received: nat): real
    requires received > 0
  {
    lost as real / (received + lost) as real
  }

  class History {
    const results: array<int>
    var received: nat
    var lost: nat
    /** Every round-trip time received, in order. */
    ghost var all: seq<int>

    ghost predicate Valid()
      reads this, results
    {
      results.Length > 0 && received == |all| && IsRing(results[..], all)
    }

    constructor (capacity: nat)
      requires capacity > 0
      ensures Valid() && fresh(results) && results.Length == capacity && all == [] && lost == 0
    {
      results := new int[capacity];
      received, lost, all := 0, 0, [];
    }

    method AddResult(rtt: int, ok: bool)
      requires Valid()
      modifies this`received, this`lost, this`all, results
      ensures Valid()
      ensures all == (if ok then old(all) + [rtt] else old(all)) && lost == old(lost) + if ok then 0 else 1
    {
      if ok {
        PlaceIsRemainder(received, results.Length);
        ghost var before, p := results[..], received % results.Length;
        results[received % results.Length] := rtt;
        received := received + 1;
        all := all + [rtt];
        assert results[..] == before[p := rtt];
        RingStep(before, old(all), rtt);
      } else {
        lost := lost + 1;
      }
    }

    /** The figures are those of the latest results, as many as the ring holds. */
    method Compute() returns (st: Stat, latency: Option<int>)
      requires Valid()
      ensures all == [] ==> st == Stat(0, if lost > 0 then 1.0 else 0.0, 0, 0, 0, 0, 0) && latency == None
      ensures all != [] ==>
        var w := Window(all, results.Length);
        && w != [] && st.last == all[|all| - 1] && st.best == Least(w) && st.worst == Greatest(w)
        && st.mean == Trunc(Sum(w) as real / |w| as real)
        && st.pktSent == |all| + lost && st.pktLoss == LossOf(lost, |all|)
        && Spread(w, 0) >= 0 && st.stddev == RootMean(Spread(w, 0), |w|)
        && latency == Some(Millis(st.last))
      ensures -st.stddev <= st.mean <= st.stddev
      ensures st.best <= st.mean <= st.worst
      ensures 0.0 <= st.pktLoss <= 1.0
    {
      if received == 0 {
        return Stat(0, if lost > 0 then 1.0 else 0.0, 0, 0, 0, 0, 0), None;
      }
      var last := Last();
      var size, best, worst, total, spread := Latest(0);
      LossRatio(lost, received);
      MeanBetween(Window(all, results.Length));
      DeviationAboveMean(Window(all, results.Length));
      st := Stat(received + lost, LossOf(lost, received), last, best, worst, Trunc(total as real / size as real),
                 RootMean(spread, size));
      latency := Some(Millis(last));
    }

    /** How many results the ring holds, the least, the greatest and the sum of them, and their spread
        around the mean as it stands. */
    method Latest(mean: int) returns (size: nat, best: int, worst: int, total: int, spread: int)
      requires Valid() && received > 0
      ensures var w := Window(all, results.Length);
        && w != [] && size == |w| && best == Least(w) && worst == Greatest(w) && total == Sum(w)
        && spread == Spread(w, mean)
    {
      size := results.Length;
      if received <= size {
        size := received;
      }
      RingIsWindow(results[..], all, mean);
      assert results[..][..size] == results[..size];
      best, worst, total := Scan(size);
      spread := ScanSpread(size, mean);
    }

    method Last() returns (last: int)
      requires Valid() && received > 0
      ensures last == all[|all| - 1]
    {
      LastWritten(results[..], all);
      PlaceIsRemainder(received - 1, results.Length);
      last := results[(received - 1) % results.Length];
    }

    method ScanSpread(size: nat, mean: int) returns (spread: int)
      requires 0 < size <= results.Length
      ensures spread == Spread(results[..size], mean)
    {
      spread := 0;
      for i := 0 to size
        invariant spread == Spread(results[..i], mean)
      {
        assert results[..i + 1][..i] == results[..i] && results[..i + 1][i] == results[i];
        spread := spread + Square(results[i] - mean);
      }
    }

    /** The least, the greatest and the sum of the first results of the ring. */
    method Scan(size: nat) returns (best: int, worst: int, total: int)
      requires 0 < size <= results.Length
      ensures best == Least(results[..size]) && worst == Greatest(results[..size]) && total == Sum(results[..size])
    {
      best, worst, total := results[0], results[0], 0;
      for i := 0 to size
        invariant total == Sum(results[..i])
        invariant i == 0 ==> best == worst == results[0]
        invariant i > 0 ==> best == Least(results[..i]) && worst == Greatest(results[..i])
      {
        assert results[..i + 1][..i] == results[..i] && results[..i + 1][i] == results[i];
        if results[i] < best {
          best := results[i];
        }
        if results[i] > worst {
          worst := results[i];
        }
        total := total + results[i];
      }
    }
  }

  /** The ring after one more result. */
  lemma RingStep(ring: seq<int>, all: seq<int>, rtt: int)
    requires ring != [] && IsRing(ring, all)
    ensures IsRing(ring[Place(|all|, |ring|) := rtt], all + [rtt])
  {
    if |all| < |ring| { StepToFill(ring, all, rtt); } else { StepToTurn(ring, all, rtt); }
  }

  lemma StepToFill(ring: seq<int>, all: seq<int>, rtt: int)
    requires |all| < |ring| && IsRing(ring, all)
    ensures IsRing(ring[|all| := rtt], all + [rtt])
  {
    RingFills(ring, all, rtt);
    NextPlace(|all|, |ring|);
  }

  lemma StepToTurn(ring: seq<int>, all: seq<int>, rtt: int)
    requires ring != [] && IsRing(ring, all) && |all| >= |ring|
    ensures IsRing(ring[Place(|all|, |ring|) := rtt], all + [rtt])
  {
    var p := Place(|all|, |ring|);
    NextPlace(|all|, |ring|);
    RingTurns(ring, Window(all, |ring|), p, rtt);
    WindowMoves(all, rtt, |ring|);
    TurnedIsRing(ring[p := rtt], all + [rtt], Window(all, |ring|)[1..] + [rtt], if p + 1 == |ring| then 0 else p + 1);
  }

  lemma TurnedIsRing(ring: seq<int>, all: seq<int>, w: seq<int>, p: nat)
    requires IsTurned(ring, w, p) && |all| >= |ring| && w == Window(all, |ring|) && p == Place(|all|, |ring|)
    ensures IsRing(ring, all)
  {
  }

  lemma WindowMoves(all: seq<int>, rtt: int, n: nat)
    requires 0 < n <= |all|
    ensures Window(all + [rtt], n) == Window(all, n)[1..] + [rtt]
  {
  }

  /** A ring that is not full gains the result at the first free place. */
  lemma RingFills(ring: seq<int>, all: seq<int>, rtt: int)
    requires |all| < |ring| && ring[..|all|] == all
    ensures ring[|all| := rtt][..|all| + 1] == all + [rtt]
    ensures |all| + 1 == |ring| ==> IsTurned(ring[|all| := rtt], all + [rtt], 0)
  {
  }

  /** A full ring turned by p loses its oldest result to the latest. */
  lemma RingTurns(ring: seq<int>, w: seq<int>, p: nat, rtt: int)
    requires IsTurned(ring, w, p)
    ensures IsTurned(ring[p := rtt], w[1..] + [rtt], if p + 1 == |ring| then 0 else p + 1)
  {
    var n, w' := |ring|, w[1..] + [rtt];
    assert ring[p := rtt] == w[n - p..] + [rtt] + w[1..n - p];
    if p + 1 < n {
      assert w'[n - p - 1..] == w[n - p..] + [rtt];
      assert w'[..n - p - 1] == w[1..n - p];
    } else {
      assert w[1..n - p] == [] && w' == w[n - p..] + [rtt];
    }
  }

  lemma {:induction false} NextPlace(r: nat, n: nat)
    requires n > 0
    ensures Place(r + 1, n) == if Place(r, n) + 1 == n then 0 else Place(r, n) + 1
  {
    if r >= n { NextPlace(r - n, n); }
  }

  /** The place is the remainder of the steps. */
  lemma {:induction false} PlaceIsRemainder(r: nat, n: nat)
    requires n > 0
    ensures Place(r, n) == r % n
  {
    if r >= n {
      PlaceIsRemainder(r - n, n);
      var q, m := (r - n) / n, (r - n) % n;
      OneMore(n, q);
      ModIs(r, q + 1, m, n);
    } else {
      ModIs(r, 0, r, n);
    }
  }

  lemma ModIs(r: nat, q: nat, m: nat, n: nat)
    requires n > 0 && r == q * n + m && m < n
    ensures r % n == m
  {
    var d := q - r / n;
    assert d * n == r % n - m by { Distribute(q, r / n, n); }
    if d >= 1 { Grows(d, n); }
    if d <= -1 { Grows(-d, n); }
  }

  lemma Distribute(a: int, b: int, n: int)
    ensures (a - b) * n == a * n - b * n
  {
  }

  lemma Grows(d: int, n: nat)
    requires d >= 1
    ensures d * n >= n && (-d) * n <= 0 - n
  {
  }

  /** The result written last stands at the place before the next. */
  lemma LastWritten(ring: seq<int>, all: seq<int>)
    requires ring != [] && IsRing(ring, all) && all != []
    ensures ring[Place(|all| - 1, |ring|)] == all[|all| - 1]
  {
    var n, r := |ring|, |all| - 1;
    NextPlace(r, n);
    if |all| >= n {
      LastTurned(ring, Window(all, n), Place(|all|, n));
      assert Window(all, n)[n - 1] == all[r];
    } else {
      assert ring[..|all|][r] == ring[r];
    }
  }

  /** In a turned ring the last of the list stands before the place turned to. */
  lemma LastTurned(ring: seq<int>, w: seq<int>, p: nat)
    requires IsTurned(ring, w, p)
    ensures ring[if p == 0 then |ring| - 1 else p - 1] == w[|ring| - 1]
  {
    var n := |ring|;
    if p == 0 { assert ring == w[n..] + w[..n]; } else { assert w[n - p..][p - 1] == w[n - 1]; }
  }

  /** What is counted of the ring has the sum, least, greatest and spread of the latest results. */
  lemma RingIsWindow(ring: seq<int>, all: seq<int>, from: int)
    requires ring != [] && IsRing(ring, all) && all != []
    ensures var c, w := ring[..if |all| <= |ring| then |all| else |ring|], Window(all, |ring|);
      && c != [] && w != [] && |c| == |w| && Sum(c) == Sum(w) && Least(c) == Least(w) && Greatest(c) == Greatest(w)
      && Spread(c, from) == Spread(w, from)
  {
    var n := |ring|;
    if |all| >= n {
      var w, p := Window(all, n), Place(|all|, n);
      CutInTwo(w, n - p);
      RotationSame(w[..n - p], w[n - p..], from);
      WholeOf(ring);
    }
  }

  lemma CutInTwo(w: seq<int>, k: nat)
    requires k <= |w|
    ensures w == w[..k] + w[k..]
  {
  }

  /** The loss is the part that gives what was lost of all that was sent. */
  lemma LossRatio(lost: nat, received: nat)
    requires received > 0
    ensures 0.0 <= LossOf(lost, received) <= 1.0
    ensures LossOf(lost, received) * (received + lost) as real == lost as real
  {
    var n := (received + lost) as real;
    assert lost as real <= n;
    DivBetween(lost as real, n);
    Product(lost as real, n);
  }

  lemma DivBetween(a: real, n: real)
    requires n > 0.0 && 0.0 <= a <= n
    ensures 0.0 <= a / n <= 1.0
  {
    Divided(0.0, a, n);
    Divided(a, n, n);
  }
}
