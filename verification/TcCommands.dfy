/** The sidecar's traffic-control commands: interfaces and filters kept as the store has them, and the
    cache by which a command may be skipped. */
module TcCommands {
  import opened Common

  /** A stored shape, its fields as text. */
  datatype Shape = Shape(delay: string, delayVariation: string, delayCorrelation: string, distribution: string,
                         packetLoss: string, dataRate: string)

  /** The settings last applied, as the cache keeps them. */
  datatype NetChar = NetChar(latency: string, jitter: string, packetLoss: string, throughput: string, distribution: string)

  const BLANK := NetChar("", "", "", "", "")

  /** The settings a command gives to netem. */
  datatype Netem = Netem(delay: string, jitter: string, correlation: string, distribution: Option<string>,
                         lossInteger: string, lossFraction: string, rate: Option<string>)

  // ----- Rendering

  function LossInteger(loss: string): string {
    if |loss| > 2 then loss[..|loss| - 2] else "0"
  }

  function LossFraction(loss: string): string {
    if |loss| > 2 then loss[|loss| - 2..] else if |loss| > 0 then loss else "00"
  }

  /** The distribution counted: with jitter, a missing one is the normal one. */
  function Distribution(s: Shape): string {
    if s.delayVariation != "0" && s.distribution == "" then "normal" else s.distribution
  }

  function Render(s: Shape): Netem {
    Netem(s.delay, s.delayVariation, s.delayCorrelation,
      if s.delayVariation != "0" && Distribution(s) != "uniform" then Some(Distribution(s)) else None,
      LossInteger(s.packetLoss), LossFraction(s.packetLoss),
      if s.dataRate != "" && s.dataRate != "0" then Some(s.dataRate) else None)
  }

  /** The settings are the stored fields: delay, jitter and correlation as stored; the rate, unless none or zero is
      stored; and with jitter the distribution, the normal one if none is stored, but no uniform one. */
  predicate SetFrom(k: Netem, s: Shape) {
    && k.delay == s.delay && k.jitter == s.delayVariation && k.correlation == s.delayCorrelation
    && (k.rate == None <==> s.dataRate == "" || s.dataRate == "0") && (k.rate.Some? ==> k.rate.value == s.dataRate)
    && (k.distribution == None <==> s.delayVariation == "0" || s.distribution == "uniform")
    && (k.distribution.Some? ==> k.distribution.value == if s.distribution == "" then "normal" else s.distribution)
  }

  function Cached(s: Shape): NetChar {
    NetChar(s.delay, s.delayVariation, s.packetLoss, s.dataRate, Distribution(s))
  }

  /** The cache entry says that nothing is to be applied. */
  predicate Skips(nc: NetChar, s: Shape) {
    && nc.latency == s.delay && nc.jitter == s.delayVariation && nc.packetLoss == s.packetLoss
    && nc.throughput == s.dataRate && (s.delayVariation != "0" ==> nc.distribution == Distribution(s))
  }

  // ----- What a skip means

  predicate AllDigits(t: string) {
    forall i :: 0 <= i < |t| ==> '0' <= t[i] <= '9'
  }

  /** A number in decimal without leading zeros. */
  predicate Decimal(t: string) {
    t != "" && AllDigits(t) && (|t| > 1 ==> t[0] != '0')
  }

  /** A shape that is skipped renders as the one applied before, if the correlation is that of before. */
  lemma SkipKeepsRendering(s: Shape, t: Shape)
    requires Skips(Cached(s), t) && s.delayCorrelation == t.delayCorrelation
    ensures Render(s) == Render(t)
  {
  }

  /** A skip is made exactly when the shape renders as the one applied before, where loss and rate are
      decimals and the correlation is that of before. */
  lemma SkipsIffSameRendering(s: Shape, t: Shape)
    requires Decimal(s.packetLoss) && Decimal(t.packetLoss) && Decimal(s.dataRate) && Decimal(t.dataRate)
    requires s.delayCorrelation == t.delayCorrelation
    ensures Skips(Cached(s), t) <==> Render(s) == Render(t)
  {
    if Render(s) == Render(t) {
      SameLoss(s.packetLoss, t.packetLoss);
    }
  }

  /** The rendered parts determine a decimal loss. */
  lemma SameLoss(a: string, b: string)
    requires Decimal(a) && Decimal(b) && LossInteger(a) == LossInteger(b) && LossFraction(a) == LossFraction(b)
    ensures a == b
  {
    LossParts(a);
    LossParts(b);
    Rejoined(a);
    Rejoined(b);
  }

  lemma Rejoined(a: string)
    requires a != ""
    ensures a == if |a| > 2 then LossInteger(a) + LossFraction(a) else LossFraction(a)
  {
  }

  lemma LossParts(a: string)
    requires Decimal(a)
    ensures LossInteger(a) == "0" <==> |a| <= 2
  {
    if |a| > 2 {
      assert LossInteger(a)[0] == a[0];
    }
  }

  /** A shape is skipped although it renders anew exactly when the correlation is all that has changed. */
  lemma SkippedWronglyExactly(s: Shape, t: Shape)
    requires Decimal(s.packetLoss) && Decimal(t.packetLoss) && Decimal(s.dataRate) && Decimal(t.dataRate)
    ensures Skips(Cached(s), t) && Render(s) != Render(t)
      <==> s.delayCorrelation != t.delayCorrelation && Render(s.(delayCorrelation := t.delayCorrelation)) == Render(t)
  {
    SkipsIffSameRendering(s.(delayCorrelation := t.delayCorrelation), t);
    if Skips(Cached(s), t) && s.delayCorrelation == t.delayCorrelation { SkipKeepsRendering(s, t); }
  }

  /** With jitter the correlation is part of what is rendered, and the cache does not know it. */
  lemma CorrelationIsNotCached()
    ensures var s := Shape("10", "5", "50", "normal", "0", "0");
      var t := s.(delayCorrelation := "60");
      Skips(Cached(s), t) && Render(s) != Render(t)
  {
  }

  // ----- What the rendered loss amounts to

  function Digit(c: char): nat
    requires '0' <= c <= '9'
  {
    (c - '0') as nat
  }

  function Value(t: string): nat
    requires AllDigits(t)
  {
    if t == "" then 0 else 10 * Value(t[..|t| - 1]) + Digit(t[|t| - 1])
  }

  function Pow10(n: nat): nat {
    if n == 0 then 1 else 10 * Pow10(n - 1)
  }

  lemma OneMoreDigit(t: string, c: char)
    requires AllDigits(t) && '0' <= c <= '9'
    ensures AllDigits(t + [c]) && Value(t + [c]) == 10 * Value(t) + Digit(c)
  {
    assert (t + [c])[..|t|] == t;
  }

  /** Two more digits. */
  lemma TwoMoreDigits(t: string, a: char, b: char)
    requires AllDigits(t) && '0' <= a <= '9' && '0' <= b <= '9'
    ensures AllDigits(t + [a] + [b]) && Value(t + [a] + [b]) == 100 * Value(t) + 10 * Digit(a) + Digit(b)
  {
    OneMoreDigit(t, a);
    OneMoreDigit(t + [a], b);
  }

  lemma SplitLastTwo(t: string)
    requires |t| >= 2
    ensures t == t[..|t| - 2] + [t[|t| - 2]] + [t[|t| - 1]]
    ensures t[|t| - 2..] == "" + [t[|t| - 2]] + [t[|t| - 1]]
  {
  }

  lemma LastTwo(t: string)
    requires AllDigits(t) && |t| >= 2
    ensures AllDigits(t[..|t| - 2]) && AllDigits(t[|t| - 2..])
    ensures Value(t) == 100 * Value(t[..|t| - 2]) + Value(t[|t| - 2..])
  {
    SplitLastTwo(t);
    TwoMoreDigits(t[..|t| - 2], t[|t| - 2], t[|t| - 1]);
    TwoMoreDigits("", t[|t| - 2], t[|t| - 1]);
  }

  /** The rendered loss is the stored hundredths of a percent exactly unless the store has one non-zero
      digit, which is rendered as tenths. */
  lemma LossRenderedExactly(loss: string)
    requires AllDigits(loss)
    ensures AllDigits(LossInteger(loss)) && AllDigits(LossFraction(loss))
    ensures Value(LossInteger(loss)) * 100 * Pow10(|LossFraction(loss)|) + 100 * Value(LossFraction(loss))
         == Value(loss) * Pow10(|LossFraction(loss)|)
      <==> !(|loss| == 1 && loss != "0")
  {
    var whole, part := LossInteger(loss), LossFraction(loss);
    assert Pow10(1) == 10 && Pow10(2) == 100;
    if |loss| > 2 {
      LastTwo(loss);
    } else if |loss| > 0 {
      ZeroValue(whole);
      if |loss| == 1 { OneDigit(loss); }
    } else {
      ZeroValue(whole);
      LastTwo(part);
      assert part[..0] == "" && Value("") == 0;
      assert Value(part) == 100 * Value(part[..0]) + Value(part[0..]);
      TwoZeros();
    }
  }

  lemma ZeroValue(t: string)
    requires t == "0"
    ensures AllDigits(t) && Value(t) == 0
  {
    assert t[..0] == "";
  }

  lemma TwoZeros()
    ensures AllDigits("00") && Value("00") == 0
  {
    assert "00"[..1] == "0";
    ZeroValue("0");
  }

  lemma OneDigit(t: string)
    requires |t| == 1 && AllDigits(t)
    ensures Value(t) == Digit(t[0]) && (Value(t) == 0 <==> t == "0")
  {
    assert t[..0] == "";
    assert Value(t[..0]) == 0;
    if t[0] == '0' { assert t == "0"; }
  }

  // ----- The refresh

  const CORRELATION := "50"
  const NO_SETTINGS: Option<Netem> := None

  /** What the engine stores: the constant correlation, and a delay. */
  predicate Stored(s: Shape) {
    s.delayCorrelation == CORRELATION && s.delay != ""
  }

  /** The settings an interface has after a refresh: those it had, if its cache entry skips the shape. */
  function Applied(had: Option<Netem>, cache: map<string, NetChar>, n: string, s: Shape): Option<Netem> {
    if n in cache && Skips(cache[n], s) then had else Some(Render(s))
  }

  /** An interface has no settings, or those of a shape its cache entry is for. */
  ghost predicate CacheTells(nc: NetChar, had: Option<Netem>) {
    had != NO_SETTINGS ==> exists s :: Stored(s) && nc == Cached(s) && had == Some(Render(s))
  }

  /** The interface has no settings, or is not there, and its cache entry skips the shape. */
  predicate LeftBare(kernel: map<string, Option<Netem>>, cache: map<string, NetChar>, n: string, s: Shape) {
    Having(kernel, n) == NO_SETTINGS && n in cache && Skips(cache[n], s)
  }

  /** An interface has the settings of its shape unless it had none and the cache skips. */
  lemma AppliedMeans(had: Option<Netem>, cache: map<string, NetChar>, n: string, s: Shape)
    requires Stored(s) && (n in cache ==> CacheTells(cache[n], had))
    ensures Applied(had, cache, n, s) != Some(Render(s)) <==> had == NO_SETTINGS && n in cache && Skips(cache[n], s)
  {
    if had != NO_SETTINGS && n in cache && Skips(cache[n], s) {
      var t :| Stored(t) && cache[n] == Cached(t) && had == Some(Render(t));
      SkipKeepsRendering(t, s);
    }
  }

  /** An interface deleted and made again for the shape it had is left without settings. */
  lemma ReusedLeftBare(n: string, s: Shape)
    ensures Applied(NO_SETTINGS, map[n := Cached(s)], n, s) == NO_SETTINGS
  {
  }

  /** Every interface has a cache entry that tells of its settings, and settings unless its number was
      used before; entries are for interfaces that are there or were. */
  ghost predicate Coherent(kernel: map<string, Option<Netem>>, cache: map<string, NetChar>, deleted: set<string>) {
    && kernel.Keys <= cache.Keys && AllTold(kernel, cache)
    && (forall n :: n in kernel && n !in deleted ==> kernel[n] != NO_SETTINGS)
    && (forall n :: n in cache ==> n in kernel || n in deleted)
  }

  ghost predicate AllTold(kernel: map<string, Option<Netem>>, cache: map<string, NetChar>) {
    forall n {:trigger CacheTells(cache[n], kernel[n])} :: n in kernel && n in cache ==> CacheTells(cache[n], kernel[n])
  }

  /** Deleting an interface keeps the cache coherent, now that its number was used before. */
  lemma DeletedKeeps(kernel: map<string, Option<Netem>>, cache: map<string, NetChar>, deleted: set<string>, n: string)
    requires Coherent(kernel, cache, deleted) && n in kernel
    ensures Coherent(kernel - {n}, cache, deleted + {n})
  {
    var less := kernel - {n};
    forall m | m in less && m in cache ensures CacheTells(cache[m], less[m]) {
      assert CacheTells(cache[m], kernel[m]);
    }
  }

  /** What an interface has; one that is not there has nothing. */
  function Having(kernel: map<string, Option<Netem>>, n: string): Option<Netem> {
    if n in kernel then kernel[n] else NO_SETTINGS
  }

  function CachedAfter(cache: map<string, NetChar>, n: string, s: Shape): map<string, NetChar> {
    if n in cache && Skips(cache[n], s) then cache else cache[n := Cached(s)]
  }

  /** Applying a shape keeps the cache coherent. */
  lemma AppliedKeeps(kernel: map<string, Option<Netem>>, cache: map<string, NetChar>, deleted: set<string>,
                     n: string, s: Shape)
    requires Coherent(kernel, cache, deleted) && Stored(s)
    ensures Coherent(kernel[n := Applied(Having(kernel, n), cache, n, s)], CachedAfter(cache, n, s), deleted)
  {
    var more, caches := kernel[n := Applied(Having(kernel, n), cache, n, s)], CachedAfter(cache, n, s);
    if n in kernel { assert CacheTells(cache[n], kernel[n]); }
    AppliedTells(Having(kernel, n), cache, n, s);
    forall m | m in more && m in caches ensures CacheTells(caches[m], more[m]) {
      if m != n { assert CacheTells(cache[m], kernel[m]); }
    }
  }

  // ----- Filters

  /** A stored filter: the addresses of its source, and the number of its interface. */
  datatype StoredFilter = StoredFilter(srcIp: string, srcSvcIp: string, ifb: string)

  /** A filter installed: packets from these addresses are redirected to an interface. */
  datatype Redirect = Redirect(from: seq<string>, ifb: string)

  function RedirectFor(f: StoredFilter): Redirect {
    Redirect(if f.srcSvcIp != "" then [f.srcIp] + [f.srcSvcIp] else [f.srcIp], f.ifb)
  }

  /** The filter redirects what comes from the source's address, or from its service's if it has one, to the
      interface. */
  predicate Redirects(r: Redirect, f: StoredFilter) {
    r.ifb == f.ifb && f.srcIp in r.from && (f.srcSvcIp != "" ==> f.srcSvcIp in r.from)
    && forall a :: a in r.from ==> a == f.srcIp || (a == f.srcSvcIp && a != "")
  }

  class TcRules {
    /** The interfaces and filters the sidecar has made. */
    var ifbs: set<string>
    var filters: set<string>
    var netcharMap: map<string, NetChar>
    /** The interfaces installed, with their settings, and the filters installed. */
    var kernel: map<string, Option<Netem>>
    var kernelFilters: map<string, Redirect>
    /** The interfaces that were ever deleted. */
    ghost var deleted: set<string>

    ghost predicate Valid()
      reads this
    {
      kernel.Keys == ifbs && kernelFilters.Keys == filters && Coherent(kernel, netcharMap, deleted)
    }

    constructor ()
      ensures Valid() && ifbs == {} && filters == {} && deleted == {}
    {
      ifbs, filters, netcharMap, kernel, kernelFilters, deleted := {}, {}, map[], map[], map[], {};
    }

    method CmdSetIfb(n: string, s: Shape) returns (applied: bool)
      requires n in kernel && Stored(s)
      modifies this`kernel, this`netcharMap
      ensures applied <==> !(n in old(netcharMap) && Skips(old(netcharMap)[n], s))
      ensures kernel == old(kernel)[n := Applied(old(kernel)[n], old(netcharMap), n, s)]
      ensures netcharMap == CachedAfter(old(netcharMap), n, s)
      ensures applied ==> kernel[n].Some? && SetFrom(kernel[n].value, s)
    {
      if n !in netcharMap {
        netcharMap := netcharMap[n := BLANK];
      }
      var nc := netcharMap[n];
      if nc.latency != s.delay || nc.jitter != s.delayVariation || nc.packetLoss != s.packetLoss
        || nc.throughput != s.dataRate || (s.delayVariation != "0" && nc.distribution != Distribution(s))
      {
        kernel := kernel[n := Some(Render(s))];
        netcharMap := netcharMap[n := Cached(s)];
        return true;
      }
      return false;
    }

    /** One stored shape: its interface is made if it is not there, and set. */
    method CreateIfbsHandler(n: string, s: Shape)
      requires Valid() && Stored(s)
      modifies this`ifbs, this`kernel, this`netcharMap
      ensures Valid() && ifbs == old(ifbs) + {n}
      ensures kernel == old(kernel)[n := Applied(Having(old(kernel), n), old(netcharMap), n, s)]
      ensures netcharMap == CachedAfter(old(netcharMap), n, s)
    {
      AppliedKeeps(kernel, netcharMap, deleted, n, s);
      if n !in ifbs {
        kernel := kernel[n := NO_SETTINGS];
        ifbs := ifbs + {n};
      }
      var applied := CmdSetIfb(n, s);
    }

    /** All stored shapes, in any order. */
    method CreateIfbs(shapes: map<string, Shape>)
      requires Valid() && forall n :: n in shapes ==> Stored(shapes[n])
      modifies this`ifbs, this`kernel, this`netcharMap
      ensures Valid() && ifbs == old(ifbs) + shapes.Keys
      ensures forall n :: n in shapes ==> kernel[n] == Applied(Having(old(kernel), n), old(netcharMap), n, shapes[n])
    {
      ghost var kernel0, cache0 := kernel, netcharMap;
      var rest := shapes.Keys;
      while rest != {}
        invariant rest <= shapes.Keys && Valid() && ifbs == old(ifbs) + (shapes.Keys - rest)
        invariant Applying(kernel0, cache0, kernel, netcharMap, shapes, rest)
        decreases rest
      {
        var n :| n in rest;
        OneMoreApplied(kernel0, cache0, kernel, netcharMap, shapes, rest, n);
        CreateIfbsHandler(n, shapes[n]);
        rest := rest - {n};
      }
    }

    /** Filters in the store get installed once; one that is there is not looked at again. */
    method CreateFilters(stored: map<string, StoredFilter>)
      requires Valid()
      modifies this`filters, this`kernelFilters
      ensures Valid() && filters == old(filters) + stored.Keys
      ensures forall n :: n in filters ==>
        kernelFilters[n] == if n in old(filters) then old(kernelFilters)[n] else RedirectFor(stored[n])
    {
      var rest := stored.Keys;
      while rest != {}
        invariant rest <= stored.Keys && Valid() && filters == old(filters) + (stored.Keys - rest)
        invariant forall n :: n in filters ==>
          kernelFilters[n] == if n in old(filters) then old(kernelFilters)[n] else RedirectFor(stored[n])
        decreases rest
      {
        var n :| n in rest;
        CreateFiltersHandler(n, stored[n]);
        rest := rest - {n};
      }
    }

    /** One stored filter: a command for the source's address, and one for its service's if it has one. */
    method CreateFiltersHandler(n: string, f: StoredFilter)
      requires Valid()
      modifies this`filters, this`kernelFilters
      ensures Valid() && filters == old(filters) + {n}
      ensures kernelFilters == if n in old(filters) then old(kernelFilters) else old(kernelFilters)[n := RedirectFor(f)]
    {
      if n !in filters {
        kernelFilters := kernelFilters[n := Redirect([f.srcIp], f.ifb)];
        if f.srcSvcIp != "" {
          kernelFilters := kernelFilters[n := Redirect([f.srcIp] + [f.srcSvcIp], f.ifb)];
        }
        filters := filters + {n};
      }
    }

    method DeleteUnusedFilters(stored: set<string>)
      requires Valid()
      modifies this`filters, this`kernelFilters
      ensures Valid() && filters == old(filters) * stored
      ensures forall n :: n in filters ==> kernelFilters[n] == old(kernelFilters)[n]
    {
      var rest := filters;
      while rest != {}
        invariant rest <= filters <= old(filters) && Valid()
        invariant filters == old(filters) * stored + rest
        invariant forall n :: n in filters ==> kernelFilters[n] == old(kernelFilters)[n]
        decreases rest
      {
        var f :| f in rest;
        rest := rest - {f};
        if f !in stored {
          kernelFilters := kernelFilters - {f};
          filters := filters - {f};
        }
      }
    }

    method RefreshFilters(stored: map<string, StoredFilter>)
      requires Valid()
      modifies this`filters, this`kernelFilters
      ensures Valid() && filters == stored.Keys
      ensures forall n :: n in stored && n !in old(filters) ==> Redirects(kernelFilters[n], stored[n])
      ensures forall n :: n in stored && n in old(filters) ==> kernelFilters[n] == old(kernelFilters)[n]
    {
      CreateFilters(stored);
      DeleteUnusedFilters(stored.Keys);
    }

    method CmdDeleteIfb(n: string)
      requires Valid() && n in ifbs
      modifies this`ifbs, this`kernel, this`deleted
      ensures Valid() && ifbs == old(ifbs) - {n} && kernel == old(kernel) - {n} && deleted == old(deleted) + {n}
    {
      DeletedKeeps(kernel, netcharMap, deleted, n);
      kernel := kernel - {n};
      ifbs := ifbs - {n};
      deleted := deleted + {n};
    }

    /** Interfaces without a stored shape are deleted; their cache entries stay behind. */
    method DeleteUnusedIfbs(stored: set<string>)
      requires Valid()
      modifies this`ifbs, this`kernel, this`deleted
      ensures Valid() && ifbs == old(ifbs) * stored
      ensures forall n :: n in ifbs ==> kernel[n] == old(kernel)[n]
      ensures deleted == old(deleted) + (old(ifbs) - stored)
    {
      var rest := ifbs;
      while rest != {}
        invariant rest <= ifbs <= old(ifbs) && Valid()
        invariant ifbs == old(ifbs) * stored + rest
        invariant forall n :: n in ifbs ==> kernel[n] == old(kernel)[n]
        invariant deleted == old(deleted) + (old(ifbs) - stored - rest)
        decreases rest
      {
        var n :| n in rest;
        OneLess(old(ifbs), stored, rest, n);
        rest := rest - {n};
        if n !in stored {
          CmdDeleteIfb(n);
        }
      }
    }

    /** After a refresh there are exactly the stored interfaces and filters. Each interface has the settings
        of its shape, unless it had none before and its cache entry says it has them; that happens to no
        interface whose number was never deleted. A filter redirects as it is stored if it is new; one whose number
        was there stays as it was installed, whatever is stored for that number now. */
    method RefreshNetCharRules(shapes: map<string, Shape>, stored: map<string, StoredFilter>)
      requires Valid() && forall n :: n in shapes ==> Stored(shapes[n])
      modifies this
      ensures Valid() && ifbs == shapes.Keys == kernel.Keys && filters == stored.Keys == kernelFilters.Keys
      ensures forall n :: n in stored && n in old(filters) ==> kernelFilters[n] == old(kernelFilters)[n]
      ensures forall n :: n in stored ==>
        (Redirects(kernelFilters[n], stored[n]) <==> n !in old(filters) || Redirects(old(kernelFilters)[n], stored[n]))
      ensures forall n :: n in shapes ==>
        (kernel[n] != Some(Render(shapes[n])) <==> LeftBare(old(kernel), old(netcharMap), n, shapes[n]))
      ensures forall n :: n in shapes && !LeftBare(old(kernel), old(netcharMap), n, shapes[n]) ==>
        kernel[n].Some? && SetFrom(kernel[n].value, shapes[n])
      ensures forall n :: n in shapes && n !in old(deleted) ==> kernel[n] == Some(Render(shapes[n]))
      ensures forall n :: n in deleted <==> n in old(deleted) || (n in old(ifbs) && n !in shapes)
    {
      AllApplied(kernel, netcharMap, deleted, shapes);
      ApplyRules(shapes, stored);
    }

    /** Interfaces and filters are made and set, and then those not stored are deleted. */
    method ApplyRules(shapes: map<string, Shape>, stored: map<string, StoredFilter>)
      requires Valid() && forall n :: n in shapes ==> Stored(shapes[n])
      modifies this
      ensures Valid() && ifbs == shapes.Keys && filters == stored.Keys
      ensures forall n :: n in shapes ==> kernel[n] == Applied(Having(old(kernel), n), old(netcharMap), n, shapes[n])
      ensures forall n :: n in stored && n !in old(filters) ==> Redirects(kernelFilters[n], stored[n])
      ensures forall n :: n in stored && n in old(filters) ==> kernelFilters[n] == old(kernelFilters)[n]
      ensures deleted == old(deleted) + (old(ifbs) - shapes.Keys)
    {
      CreateIfbs(shapes);
      RefreshFilters(stored);
      DeleteUnusedIfbs(shapes.Keys);
    }
  }

  /** What holds while shapes are applied one by one: those not left over have their settings, those left
      over are as at the start. */
  ghost predicate Applying(kernel0: map<string, Option<Netem>>, cache0: map<string, NetChar>,
                           kernel: map<string, Option<Netem>>,
                           cache: map<string, NetChar>, shapes: map<string, Shape>, rest: set<string>) {
    && (forall n :: n in shapes && n !in rest ==> n in kernel && kernel[n] == Applied(Having(kernel0, n), cache0, n, shapes[n]))
    && (forall n :: n in rest ==> Having(kernel, n) == Having(kernel0, n) && (n in cache <==> n in cache0))
    && (forall n :: n in rest && n in cache && n in cache0 ==> cache[n] == cache0[n])
  }

  /** What is kept and what is gone, once one more of the rest is looked at. */
  lemma OneLess(all: set<string>, stored: set<string>, rest: set<string>, n: string)
    requires n in rest && rest <= all
    ensures n in stored ==> all * stored + (rest - {n}) == all * stored + rest
    ensures n in stored ==> all - stored - (rest - {n}) == all - stored - rest
    ensures n !in stored ==> all * stored + (rest - {n}) == all * stored + rest - {n}
    ensures n !in stored ==> all - stored - (rest - {n}) == all - stored - rest + {n}
  {
  }

  lemma OneMoreApplied(kernel0: map<string, Option<Netem>>, cache0: map<string, NetChar>,
                       kernel: map<string, Option<Netem>>,
                       cache: map<string, NetChar>, shapes: map<string, Shape>, rest: set<string>, n: string)
    requires Applying(kernel0, cache0, kernel, cache, shapes, rest) && n in rest && n in shapes
    ensures Applying(kernel0, cache0, kernel[n := Applied(Having(kernel, n), cache, n, shapes[n])],
              CachedAfter(cache, n, shapes[n]), shapes, rest - {n})
  {
  }

  lemma AllApplied(kernel: map<string, Option<Netem>>, cache: map<string, NetChar>, deleted: set<string>,
                   shapes: map<string, Shape>)
    requires Coherent(kernel, cache, deleted) && forall n :: n in shapes ==> Stored(shapes[n])
    ensures forall n :: n in shapes ==>
      (Applied(Having(kernel, n), cache, n, shapes[n]) != Some(Render(shapes[n])) <==> LeftBare(kernel, cache, n, shapes[n]))
    ensures forall n :: n in shapes && n !in deleted ==> !LeftBare(kernel, cache, n, shapes[n])
  {
    forall n | n in shapes
      ensures Applied(Having(kernel, n), cache, n, shapes[n]) != Some(Render(shapes[n])) <==> LeftBare(kernel, cache, n, shapes[n])
    {
      if n in kernel { assert CacheTells(cache[n], kernel[n]); }
      AppliedMeans(Having(kernel, n), cache, n, shapes[n]);
    }
  }

  /** After a shape is applied the cache entry tells of the settings again. */
  lemma AppliedTells(had: Option<Netem>, cache: map<string, NetChar>, n: string, s: Shape)
    requires Stored(s) && (n in cache ==> CacheTells(cache[n], had) || had == NO_SETTINGS)
    ensures CacheTells(if n in cache && Skips(cache[n], s) then cache[n] else Cached(s), Applied(had, cache, n, s))
  {
  }
}
