/** From the figures of an update to the settings of an interface: what the engine stores as text, and what the
    sidecar of the pod sets from it. */
module TcDelivery {
  import opened Common
  import opened Text
  import TcEngine
  import opened TcCommands

  // ----- Numbers as text

  function DigitOf(n: nat): (c: char)
    requires n < 10
    ensures '0' <= c <= '9' && Digit(c) == n
  {
    '0' + n as char
  }

  function NatText(n: nat): string {
    if n < 10 then [DigitOf(n)] else NatText(n / 10) + [DigitOf(n % 10)]
  }

  function IntText(n: int): string {
    if n < 0 then "-" + NatText(-n) else NatText(n)
  }

  lemma {:induction false} NatTextReads(n: nat)
    ensures Decimal(NatText(n)) && Value(NatText(n)) == n && (n > 0 ==> NatText(n)[0] != '0')
  {
    var t := NatText(n);
    if n < 10 {
      OneDigit(t);
    } else {
      NatTextReads(n / 10);
      OneMoreDigit(NatText(n / 10), DigitOf(n % 10));
    }
  }

  /** The text reads as the number. */
  predicate Reads(t: string, n: int) {
    if n < 0 then |t| > 1 && t[0] == '-' && Decimal(t[1..]) && Value(t[1..]) == -n else Decimal(t) && Value(t) == n
  }

  lemma IntTextReads(n: int)
    ensures Reads(IntText(n), n)
  {
    NatTextReads(if n < 0 then -n else n);
    if n < 0 { assert IntText(n)[1..] == NatText(-n); }
  }

  /** One text reads as one number. */
  lemma ReadsOnce(t: string, m: int, n: int)
    requires Reads(t, m) && Reads(t, n)
    ensures m == n
  {
  }

  lemma IntTextTells(m: int, n: int)
    requires IntText(m) == IntText(n)
    ensures m == n
  {
    IntTextReads(m);
    IntTextReads(n);
    ReadsOnce(IntText(m), m, n);
  }

  // ----- What the store hands over

  /** A shape as it is written to the store. */
  function Written(s: TcEngine.Shape): Shape {
    Shape(IntText(s.latency), IntText(s.latencyVariation), CORRELATION, s.distribution, IntText(s.packetLoss),
          IntText(s.dataRate))
  }

  /** The shapes are those stored for a pod, by filter number. */
  ghost predicate ShapesFor(store: TcEngine.Store, pod: string, shapes: map<string, Shape>) {
    && (forall i :: (pod, i) in store.shapes ==> IntText(i) in shapes && shapes[IntText(i)] == Written(store.shapes[(pod, i)]))
    && (forall n :: n in shapes ==> exists i :: (pod, i) in store.shapes && n == IntText(i))
  }

  lemma AllStored(store: TcEngine.Store, pod: string, shapes: map<string, Shape>)
    requires ShapesFor(store, pod, shapes)
    ensures forall n :: n in shapes ==> Stored(shapes[n])
  {
    forall n | n in shapes ensures Stored(shapes[n]) {
      var i :| (pod, i) in store.shapes && n == IntText(i);
      IntTextReads(store.shapes[(pod, i)].latency);
    }
  }

  /** The entries a pod has in the store, with their keys. */
  method ReadShapes(store: TcEngine.Store, pod: string) returns (shapes: map<string, Shape>)
    ensures ShapesFor(store, pod, shapes)
  {
    shapes := map[];
    var rest := store.shapes.Keys;
    while rest != {}
      invariant rest <= store.shapes.Keys
      invariant forall i :: (pod, i) in store.shapes && (pod, i) !in rest ==>
        IntText(i) in shapes && shapes[IntText(i)] == Written(store.shapes[(pod, i)])
      invariant forall n :: n in shapes ==> exists i :: (pod, i) in store.shapes && n == IntText(i)
      decreases rest
    {
      var key :| key in rest;
      rest := rest - {key};
      if key.0 == pod {
        forall i | (pod, i) in store.shapes && IntText(i) == IntText(key.1) ensures i == key.1 {
          IntTextTells(i, key.1);
        }
        shapes := shapes[IntText(key.1) := Written(store.shapes[key])];
      }
    }
  }

  /** The filters are those stored for a pod, by filter number; the interface has the number of the filter. */
  ghost predicate FiltersFor(store: TcEngine.Store, pod: string, filters: map<string, StoredFilter>) {
    && (forall i :: (pod, i) in store.rules ==>
        IntText(i) in filters && filters[IntText(i)] == Entry(store.rules[(pod, i)], i))
    && (forall n :: n in filters ==> exists i :: (pod, i) in store.rules && n == IntText(i))
  }

  function Entry(r: TcEngine.FilterRule, i: int): StoredFilter {
    StoredFilter(r.srcIp, r.srcSvcIp, IntText(i))
  }

  method ReadFilters(store: TcEngine.Store, pod: string) returns (filters: map<string, StoredFilter>)
    ensures FiltersFor(store, pod, filters)
  {
    filters := map[];
    var rest := store.rules.Keys;
    while rest != {}
      invariant rest <= store.rules.Keys
      invariant forall i :: (pod, i) in store.rules && (pod, i) !in rest ==>
        IntText(i) in filters && filters[IntText(i)] == Entry(store.rules[(pod, i)], i)
      invariant forall n :: n in filters ==> exists i :: (pod, i) in store.rules && n == IntText(i)
      decreases rest
    {
      var key :| key in rest;
      rest := rest - {key};
      if key.0 == pod {
        forall i | (pod, i) in store.rules && IntText(i) == IntText(key.1) ensures i == key.1 {
          IntTextTells(i, key.1);
        }
        filters := filters[IntText(key.1) := Entry(store.rules[key], key.1)];
      }
    }
  }

  // ----- Figures and settings

  /** The text reads as the figure cut towards zero. */
  ghost predicate Cut(t: string, x: real) {
    exists n :: Reads(t, n) && if x >= 0.0 then n as real <= x < n as real + 1.0 else n as real - 1.0 < x <= n as real
  }

  lemma CutText(x: real)
    ensures Cut(IntText(Trunc(x)), x)
  {
    IntTextReads(Trunc(x));
  }

  /** The hundredths of a percent that are lost, from the two parts rendered. */
  function Hundredths(k: Netem): nat
    requires AllDigits(k.lossInteger) && AllDigits(k.lossFraction)
  {
    100 * Value(k.lossInteger) + if |k.lossFraction| == 1 then 10 * Value(k.lossFraction) else Value(k.lossFraction)
  }

  /** The settings are the figures of an update: milliseconds of delay and jitter, half of each correlated, bits a
      second of a rate given in millions, no rate if it has none; the distribution if there is jitter, the normal
      one if none is named, and none if it is the uniform one. */
  ghost predicate Carries(k: Netem, rate: real, latency: real, latencyVariation: real, distribution: string) {
    && Cut(k.delay, latency) && Cut(k.jitter, latencyVariation) && Reads(k.correlation, 50)
    && (k.rate.None? <==> -1.0 < 1000000.0 * rate < 1.0) && (k.rate.Some? ==> Cut(k.rate.value, 1000000.0 * rate))
    && (k.distribution.None? <==> -1.0 < latencyVariation < 1.0 || Lower(distribution) == "uniform")
    && (k.distribution.Some? ==> k.distribution.value == if distribution == "" then "normal" else Lower(distribution))
  }

  /** The loss in hundredths of a percent, cut; but one to nine hundredths become as many tenths. */
  ghost predicate Loses(k: Netem, packetLoss: real) {
    && AllDigits(k.lossInteger) && AllDigits(k.lossFraction)
    && var h := Hundredths(k);
    && (0.01 <= packetLoss < 0.1 ==> h % 10 == 0 && h as real <= 1000.0 * packetLoss < h as real + 10.0)
    && (!(0.01 <= packetLoss < 0.1) ==> h as real <= 100.0 * packetLoss < h as real + 1.0)
  }

  lemma ZeroText(x: real)
    ensures IntText(Trunc(x)) == "0" <==> -1.0 < x < 1.0
  {
    IntTextReads(Trunc(x));
    ZeroValue("0");
    if IntText(Trunc(x)) == "0" { ReadsOnce("0", Trunc(x), 0); }
  }

  lemma NotEmpty(n: int)
    ensures IntText(n) != ""
  {
    IntTextReads(n);
  }

  lemma FiguresRendered(rate: real, latency: real, latencyVariation: real, distribution: string, packetLoss: real)
    ensures Carries(Render(Written(TcEngine.ShapeOf(rate, latency, latencyVariation, distribution, packetLoss))),
                    rate, latency, latencyVariation, distribution)
  {
    CutText(latency);
    CutText(latencyVariation);
    CutText(1000000.0 * rate);
    ZeroText(1000000.0 * rate);
    ZeroText(latencyVariation);
    NotEmpty(Trunc(1000000.0 * rate));
    FiftyReads();
    assert distribution == "" <==> Lower(distribution) == "";
  }

  /** A filter that no update has reshaped delays, varies and loses nothing, and has no rate. */
  lemma NewFilterShapesNothing()
    ensures var k := Render(Written(TcEngine.NO_SHAPE));
      && Reads(k.delay, 0) && Reads(k.jitter, 0) && k.distribution == None && k.rate == None
      && AllDigits(k.lossInteger) && AllDigits(k.lossFraction) && Hundredths(k) == 0
  {
    IntTextReads(0);
    LossRendered(0, Written(TcEngine.NO_SHAPE));
    assert NatText(0) == "0";
  }

  lemma FiftyReads()
    ensures Reads("50", 50)
  {
    assert "50"[..1] == "5" && "5"[..0] == "";
    assert Value("5") == 5;
  }

  lemma LossRendered(n: nat, s: Shape)
    requires s.packetLoss == NatText(n)
    ensures var k := Render(s);
      && AllDigits(k.lossInteger) && AllDigits(k.lossFraction)
      && Hundredths(k) == if 1 <= n <= 9 then 10 * n else n
  {
    var t := NatText(n);
    NatTextReads(n);
    ZeroValue("0");
    if |t| > 2 {
      LastTwo(t);
      LongText(n);
    } else if |t| == 1 {
      OneDigit(t);
    } else {
      LongText(n);
    }
  }

  lemma LongText(n: nat)
    ensures |NatText(n)| == 1 <==> n <= 9
  {
    if n >= 10 { NatTextReads(n / 10); }
  }

  lemma LossOf(rate: real, latency: real, latencyVariation: real, distribution: string, packetLoss: real)
    requires packetLoss >= 0.0
    ensures Loses(Render(Written(TcEngine.ShapeOf(rate, latency, latencyVariation, distribution, packetLoss))), packetLoss)
  {
    LossRendered(Trunc(100.0 * packetLoss),
                 Written(TcEngine.ShapeOf(rate, latency, latencyVariation, distribution, packetLoss)));
  }

  /** The filter of a source at a pod that is served. */
  lemma FilterServed(elems: map<string, TcEngine.NetElem>, ips: map<string, string>, svcs: map<string, string>,
                     store: TcEngine.Store, pod: string, src: string, filters: map<string, StoredFilter>)
    requires TcEngine.Serving(elems, ips, svcs, store) && pod in elems && src in elems[pod].filters
    requires FiltersFor(store, pod, filters)
    ensures var n := IntText(elems[pod].filters[src].uniqueNumber);
      && src in ips && n in filters
      && filters[n] == StoredFilter(ips[src], if src in svcs then svcs[src] else "", n)
  {
    assert TcEngine.Filtered(pod, elems[pod], ips, svcs, store);
    assert TcEngine.Stored(store, pod, src, elems[pod].filters[src]);
  }

  /** The figures of an update reach the traffic they are for: after the pod's sidecar refreshes, the interface of
      the filter's number has them as its settings, if no interface of that number was ever deleted; and what comes
      from the source's address, or its service's, is redirected to that interface, if no filter of that number
      was there. */
  method UpdateReaches(engine: TcEngine.TcEngine, rules: TcRules, pod: string, src: string, rate: real, latency: real,
                       latencyVariation: real, distribution: string, packetLoss: real)
    returns (applied: bool)
    requires engine.Valid() && rules.Valid()
    modifies engine`netElemMap, engine`store, rules
    ensures engine.Valid() && rules.Valid()
    ensures applied <==> pod in old(engine.netElemMap) && src in old(engine.netElemMap)[pod].filters
    ensures applied ==>
      var n := IntText(old(engine.netElemMap)[pod].filters[src].uniqueNumber);
      && n in rules.kernel && n in rules.kernelFilters && src in engine.podIPMap
      && (n !in old(rules.deleted) ==>
          && rules.kernel[n].Some?
          && Carries(rules.kernel[n].value, rate, latency, latencyVariation, distribution)
          && (packetLoss >= 0.0 ==> Loses(rules.kernel[n].value, packetLoss)))
      && (n !in old(rules.filters) ==>
          && rules.kernelFilters[n].ifb == n
          && var svcIp := if src in engine.svcIPMap then engine.svcIPMap[src] else "";
          forall a :: a in rules.kernelFilters[n].from <==> a == engine.podIPMap[src] || (a == svcIp && a != ""))
  {
    applied := engine.NetCharUpdate(pod, src, rate, latency, latencyVariation, distribution, packetLoss);
    var shapes := ReadShapes(engine.store, pod);
    var filters := ReadFilters(engine.store, pod);
    AllStored(engine.store, pod, shapes);
    if applied {
      FilterServed(engine.netElemMap, engine.podIPMap, engine.svcIPMap, engine.store, pod, src, filters);
    }
    rules.RefreshNetCharRules(shapes, filters);
    FiguresRendered(rate, latency, latencyVariation, distribution, packetLoss);
    if packetLoss >= 0.0 { LossOf(rate, latency, latencyVariation, distribution, packetLoss); }
  }
}
