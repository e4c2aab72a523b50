/** The sidecar that refreshes the chains: its commands, its handler for one rule, and the refresh. */
module LbSidecar {
  import opened Common
  import opened Text
  import opened LbChains
  import opened LbReconciler

  /** The NAT table behind the commands. Each tells whether it succeeded; a failed one changes nothing. */
  class IPTables {
    var tbl: Table

    constructor (tbl: Table)
      ensures this.tbl == tbl
    {
      this.tbl := tbl;
    }

    method ListChains() returns (chains: set<string>)
      ensures chains == tbl.Keys
    {
      return tbl.Keys;
    }

    method NewChain(c: string) returns (ok: bool)
      modifies this
      ensures ok <==> c !in old(tbl)
      ensures tbl == if ok then old(tbl)[c := []] else old(tbl)
    {
      ok := c !in tbl;
      if ok {
        tbl := tbl[c := []];
      }
    }

    method Exists(c: string, r: Rule) returns (ok: bool, found: bool)
      ensures ok <==> c in tbl
      ensures found <==> c in tbl && r in tbl[c]
    {
      return c in tbl, c in tbl && r in tbl[c];
    }

    method AppendUnique(c: string, r: Rule) returns (ok: bool)
      modifies this
      ensures ok <==> c in old(tbl)
      ensures tbl == if ok then Appended(old(tbl), c, r) else old(tbl)
    {
      var found;
      ok, found := Exists(c, r);
      if ok && !found {
        tbl := tbl[c := tbl[c] + [r]];
      }
    }

    method Delete(c: string, r: Rule) returns (ok: bool)
      modifies this
      ensures ok <==> c in old(tbl) && r in old(tbl)[c]
      ensures tbl == if ok then old(tbl)[c := RemoveFirst(old(tbl)[c], r)] else old(tbl)
    {
      ok := c in tbl && r in tbl[c];
      if ok {
        tbl := tbl[c := RemoveFirst(tbl[c], r)];
      }
    }

    /** Empties the chain, and makes it if it is not there. */
    method ClearChain(c: string)
      modifies this
      ensures tbl == old(tbl)[c := []]
    {
      tbl := tbl[c := []];
    }

    /** A chain is deleted only if it is there, empty, and no jump leads to it. */
    method DeleteChain(c: string) returns (ok: bool)
      modifies this
      ensures ok <==> c in old(tbl) && old(tbl)[c] == [] && forall d :: d in old(tbl) ==> !Refers(old(tbl), d, c)
      ensures tbl == if ok then old(tbl) - {c} else old(tbl)
    {
      ok := c in tbl && tbl[c] == [] && forall d :: d in tbl ==> !Refers(tbl, d, c);
      if ok {
        tbl := tbl - {c};
      }
    }
  }

  /** The names drawn for the rules are not in the table and not drawn twice. */
  predicate FreshNames(tbl: Table, db: seq<LbRule>, tails: seq<string>)
    requires AllSupported(db) && |tails| == |db|
  {
    && (forall i :: 0 <= i < |db| ==> NewName(db[i], tails[i]) !in tbl)
    && (forall i, j :: 0 <= i < j < |db| ==> NewName(db[i], tails[i]) != NewName(db[j], tails[j]))
  }

  /** The table has grown by no names but those drawn for the first rules. */
  ghost predicate GrownBy(tbl0: Table, tbl: Table, db: seq<LbRule>, tails: seq<string>, n: nat)
    requires n <= |db| == |tails|
  {
    forall c :: c in tbl && c !in tbl0 ==> exists k :: 0 <= k < n && Supported(db[k]) && c == NewName(db[k], tails[k])
  }

  lemma GrowsByOne(tbl0: Table, s: State, db: seq<LbRule>, tails: seq<string>, i: nat)
    requires i < |db| == |tails| && CanStep(s, db[i], tails[i]) && GrownBy(tbl0, s.tbl, db, tails, i)
    ensures GrownBy(tbl0, Step(s, db[i], tails[i]).tbl, db, tails, i + 1)
  {
    StepAddsName(s, db[i], tails[i]);
    GrownByOneMore(tbl0, s.tbl, Step(s, db[i], tails[i]).tbl, db, tails, i);
  }

  lemma StepAddsName(s: State, r: LbRule, tail: string)
    requires CanStep(s, r, tail)
    ensures forall c :: c in Step(s, r, tail).tbl ==> c in s.tbl || (Supported(r) && c == NewName(r, tail))
  {
    TopThere(s.tbl, RuleKind(r));
  }

  lemma GrownByOneMore(tbl0: Table, tbl: Table, after: Table, db: seq<LbRule>, tails: seq<string>, i: nat)
    requires i < |db| == |tails| && GrownBy(tbl0, tbl, db, tails, i)
    requires forall c :: c in after ==> c in tbl || (Supported(db[i]) && c == NewName(db[i], tails[i]))
    ensures GrownBy(tbl0, after, db, tails, i + 1)
  {
    forall c | c in after && c !in tbl0 ensures exists k :: 0 <= k <= i && Supported(db[k]) && c == NewName(db[k], tails[k]) {
      if c in tbl {
        var k :| 0 <= k < i && Supported(db[k]) && c == NewName(db[k], tails[k]);
      }
    }
  }

  lemma FreshStillFree(tbl0: Table, tbl: Table, db: seq<LbRule>, tails: seq<string>, i: nat)
    requires AllSupported(db) && i < |db| == |tails| && FreshNames(tbl0, db, tails) && GrownBy(tbl0, tbl, db, tails, i)
    ensures NewName(db[i], tails[i]) !in tbl
  {
  }

  // ----- A refresh that fails

  /** What a rule that cannot be handled leaves: its service is mapped to the name drawn, if its type is
      supported, and nothing else is changed. */
  function Failed(s: State, r: LbRule, tail: string): State {
    State(s.tbl, if Supported(r) then s.services[ServiceOf(r) := NewName(r, tail)] else s.services, {}, s.changed)
  }

  ghost predicate StopsHere(s: State, r: LbRule, tail: string, after: State) {
    !CanStep(s, r, tail) && after == Failed(s, r, tail)
  }

  /** The stored rules before the one that cannot be handled are handled, and it leaves what it leaves. */
  ghost predicate Stopped(tbl0: Table, services0: map<string, string>, db: seq<LbRule>, tails: seq<string>,
                          made: seq<string>, last: State, after: State) {
    && |made| < |db| == |tails|
    && Progress(tbl0, services0, last, db[..|made|], made)
    && GrownBy(tbl0, last.tbl, db, tails, |made|)
    && StopsHere(last, db[|made|], tails[|made|], after)
  }

  lemma UpToDatePrefix(tbl: Table, services: map<string, string>, db: seq<LbRule>, i: nat)
    requires i < |db|
    ensures AllSupported(db) ==> AllSupported(db[..i] + [db[i]])
    ensures AllSupported(db) && UpToDate(tbl, services, db) ==> UpToDate(tbl, services, db[..i] + [db[i]])
  {
    assert forall k :: 0 <= k <= i ==> (db[..i] + [db[i]])[k] == db[k];
  }

  /** A refresh of supported rules and an unsupported one stops at the latter, with the others handled. */
  lemma StopsAtUnsupported(tbl0: Table, services0: map<string, string>, db: seq<LbRule>, x: LbRule, tails: seq<string>,
                           tail: string, made: seq<string>, last: State, after: State)
    requires AllSupported(db) && !Supported(x) && |tails| == |db| && FreshNames(tbl0, db, tails)
    requires Stopped(tbl0, services0, db + [x], tails + [tail], made, last, after)
    ensures |made| == |db| && Progress(tbl0, services0, last, db, made)
    ensures after.tbl == last.tbl && after.services == last.services && after.changed == last.changed
  {
    var more := db + [x];
    assert more[..|db|] == db && more[|db|] == x;
  }

  /** The refresh after one that failed at an unsupported rule, on the other rules in whatever order, finds
      nothing to make, and so flushes no connections, exactly when no two have the same service string.
      The failed one has made chains exactly when its table was not up to date. */
  lemma QuietAfterFailure(tbl0: Table, services0: map<string, string>, db: seq<LbRule>, x: LbRule, tails: seq<string>,
                          tail: string, made: seq<string>, last: State, after: State, again: seq<LbRule>)
    requires AllSupported(db) && !Supported(x) && |tails| == |db| && FreshNames(tbl0, db, tails)
    requires Stopped(tbl0, services0, db + [x], tails + [tail], made, last, after) && multiset(again) == multiset(db)
    ensures AllSupported(again)
    ensures UpToDate(after.tbl, after.services, again) <==> DistinctServices(db)
    ensures after.changed <==> !UpToDate(tbl0, services0, db)
  {
    StopsAtUnsupported(tbl0, services0, db, x, tails, tail, made, last, after);
    HandledAgain(after.tbl, after.services, db, made, again);
  }

  lemma OneFresh(tbl: Table, a: LbRule, tail: string)
    requires Inv(tbl) && Supported(a) && Fits(a, tail) && NewName(a, tail) !in tbl
    ensures AllSupported([a]) && DistinctServices([a]) && FreshNames(Prepared(tbl), [a], [tail])
  {
    assert [a][0] == a && [tail][0] == tail;
    FreshAsPrepared(tbl, [a], [tail]);
  }

  lemma OneRuleAfterFailure(tbl: Table, services: map<string, string>, a: LbRule, x: LbRule, tail: string,
                            made: seq<string>, last: State, mid: State)
    requires Inv(tbl) && Supported(a) && !Supported(x) && Fits(a, tail) && NewName(a, tail) !in tbl
    requires Stopped(Prepared(tbl), services, [a] + [x], [tail] + [""], made, last, mid)
    ensures UpToDate(mid.tbl, mid.services, [a])
  {
    OneFresh(tbl, a, tail);
    QuietAfterFailure(Prepared(tbl), services, [a], x, [tail], "", made, last, mid, [a]);
  }

  lemma OneRuleCurrent(tbl: Table, services: map<string, string>, a: LbRule, made: seq<string>)
    requires Reconciled(tbl, services, [a], made)
    ensures Supported(a) && Current(tbl, services, a)
  {
    assert [a][0] == a;
    CurrentAgain(tbl, services, [a], made, a);
  }

  /** A rule cannot be handled only if one is unsupported, or a name drawn is taken and something is to
      be made. */
  lemma StopsOnlyIf(tbl0: Table, services0: map<string, string>, db: seq<LbRule>, tails: seq<string>,
                    made: seq<string>, s: State, i: nat)
    requires i < |db| == |tails| && Progress(tbl0, services0, s, db[..i], made) && GrownBy(tbl0, s.tbl, db, tails, i)
    requires !CanStep(s, db[i], tails[i])
    ensures |made| == i
    ensures !(AllSupported(db) && (FreshNames(tbl0, db, tails) || UpToDate(tbl0, services0, db)))
  {
    if AllSupported(db) && FreshNames(tbl0, db, tails) {
      FreshStillFree(tbl0, s.tbl, db, tails, i);
    }
    UpToDatePrefix(tbl0, services0, db, i);
    CanStepIfUpToDate(tbl0, services0, s, db[..i], made, db[i], tails[i]);
  }

  /** Where nothing is to be made no name is drawn, so none can be taken. */
  lemma CanStepIfUpToDate(tbl0: Table, services0: map<string, string>, s: State, done: seq<LbRule>, made: seq<string>,
                          r: LbRule, tail: string)
    requires Progress(tbl0, services0, s, done, made)
    ensures AllSupported(done + [r]) && UpToDate(tbl0, services0, done + [r]) ==> CanStep(s, r, tail)
  {
    if AllSupported(done + [r]) {
      assert (done + [r])[|done|] == r;
      StepChanges(tbl0, services0, s, done, made, r);
    }
  }

  /** Names free in the table are free once the top level is in place. */
  lemma FreshAsPrepared(tbl: Table, db: seq<LbRule>, tails: seq<string>)
    requires Inv(tbl) && |db| == |tails|
    requires forall i :: 0 <= i < |db| ==> Fits(db[i], tails[i])
    ensures AllSupported(db) && FreshNames(tbl, db, tails) ==> FreshNames(Prepared(tbl), db, tails)
  {
    PreparedAddsTops(tbl);
    if AllSupported(db) {
      forall i | 0 <= i < |db| ensures NewName(db[i], tails[i]) in Prepared(tbl) ==> NewName(db[i], tails[i]) in tbl {
        NewNameIsSvc(db[i], tails[i]);
        SvcName(RuleKind(db[i]), NewName(db[i], tails[i]));
      }
    }
  }

  lemma InstalledInSteps(tbl: Table, k: Kind, p: string, c: string, r: Rule)
    requires p == Top(k) && p in tbl && c !in tbl && Jump(c) !in tbl[p]
    ensures Appended(Appended(tbl[c := []], p, Jump(c)), c, r) == Installed(tbl, k, c, r)
  {
    var a := tbl[c := []];
    var b := Appended(a, p, Jump(c));
    assert b == a[p := tbl[p] + [Jump(c)]] && b[c] == [];
    assert [] + [r] == [r];
  }

  lemma PrefixGrows<T>(s: seq<T>, i: nat)
    requires i < |s|
    ensures s[..i + 1] == s[..i] + [s[i]]
  {
  }

  class Sidecar {
    const ipTbl: IPTables
    var serviceChains: map<string, string>
    var flushRequired: bool
    /** How often tracked connections were flushed. */
    var flushes: nat

    constructor (ipTbl: IPTables)
      ensures this.ipTbl == ipTbl && serviceChains == map[] && !flushRequired && flushes == 0
    {
      this.ipTbl, serviceChains, flushRequired, flushes := ipTbl, map[], false, 0;
    }

    function Now(rest: set<string>): State
      reads this, ipTbl
    {
      State(ipTbl.tbl, serviceChains, rest, flushRequired)
    }

    /** One rule is handled as the step function says, or fails with the table as it was. */
    method RefreshLbRulesHandler(r: LbRule, tail: string, chainMap: set<string>) returns (ok: bool, rest: set<string>)
      requires Inv(ipTbl.tbl) && HasTops(ipTbl.tbl) && MapsToSvc(serviceChains) && Fits(r, tail)
      requires forall c :: c in chainMap ==> c in ipTbl.tbl
      modifies this`serviceChains, this`flushRequired, ipTbl
      ensures ok <==> CanStep(old(Now(chainMap)), r, tail)
      ensures ok ==> Now(rest) == Step(old(Now(chainMap)), r, tail)
      ensures !ok ==> MapsToSvc(serviceChains) && Now({}) == Failed(old(Now(chainMap)), r, tail)
      ensures !ok ==> ipTbl.tbl == old(ipTbl.tbl)
      ensures !ok && Supported(r) ==> ServiceOf(r) in serviceChains && serviceChains[ServiceOf(r)] == NewName(r, tail)
    {
      rest := chainMap;
      var parentChain: string, servicePrefix: string;
      match r.svcType {
        case "INGRESS-SVC" => parentChain, servicePrefix := Top(Ingress), SvcPrefix(Ingress);
        case "EGRESS-SVC" => parentChain, servicePrefix := Top(Egress), SvcPrefix(Egress);
        case "ME-SVC" => parentChain, servicePrefix := Top(Me), SvcPrefix(Me);
        case _ => return false, rest;
      }
      ok, rest := HandleSupported(r, tail, chainMap, parentChain, servicePrefix);
    }

    method HandleSupported(r: LbRule, tail: string, chainMap: set<string>, parentChain: string, servicePrefix: string)
      returns (ok: bool, rest: set<string>)
      requires Inv(ipTbl.tbl) && HasTops(ipTbl.tbl) && MapsToSvc(serviceChains) && Fits(r, tail)
      requires forall c :: c in chainMap ==> c in ipTbl.tbl
      requires Supported(r) && parentChain == Top(RuleKind(r)) && servicePrefix == SvcPrefix(RuleKind(r))
      modifies this`serviceChains, this`flushRequired, ipTbl
      ensures ok <==> CanStep(old(Now(chainMap)), r, tail)
      ensures ok ==> Now(rest) == Step(old(Now(chainMap)), r, tail)
      ensures !ok ==> MapsToSvc(serviceChains) && Now({}) == Failed(old(Now(chainMap)), r, tail)
    {
      var service := servicePrefix + Upper(r.svcName) + "-" + r.port;
      var args := Dnat(r.protocol, r.svcIp, r.port, r.lbIp, r.lbPort, service);
      var current;
      current, rest := Claim(service, args, chainMap);
      if current {
        return true, rest;
      }
      ok := Make(service, servicePrefix + tail, parentChain, RuleKind(r), args, r, tail);
    }

    /** The chain last made for a service is claimed if it is there, unclaimed, and holds the rule. */
    method Claim(service: string, args: Rule, chainMap: set<string>) returns (current: bool, rest: set<string>)
      requires forall c :: c in chainMap ==> c in ipTbl.tbl
      ensures current <==>
        && service in serviceChains && serviceChains[service] in chainMap
        && serviceChains[service] in ipTbl.tbl && args in ipTbl.tbl[serviceChains[service]]
      ensures rest == if current then chainMap - {serviceChains[service]} else chainMap
    {
      current, rest := false, chainMap;
      if service in serviceChains && serviceChains[service] in rest {
        var ok;
        ok, current := ipTbl.Exists(serviceChains[service], args);
        if current {
          rest := rest - {serviceChains[service]};
        }
      }
    }

    /** A chain for a service is made and hung, unless the name is taken. */
    method Make(service: string, chain: string, parent: string, ghost k: Kind, args: Rule, ghost r: LbRule,
                ghost tail: string)
      returns (ok: bool)
      requires Inv(ipTbl.tbl) && HasTops(ipTbl.tbl) && MapsToSvc(serviceChains) && Fits(r, tail)
      requires Supported(r) && k == RuleKind(r) && chain == NewName(r, tail) && parent == Top(k)
      modifies this`serviceChains, this`flushRequired, ipTbl
      ensures Top(k) in old(ipTbl.tbl) && MapsToSvc(serviceChains)
      ensures ok <==> chain !in old(ipTbl.tbl)
      ensures serviceChains == old(serviceChains)[service := chain]
      ensures ok ==> ipTbl.tbl == Installed(old(ipTbl.tbl), k, chain, args) && flushRequired
      ensures !ok ==> ipTbl.tbl == old(ipTbl.tbl) && flushRequired == old(flushRequired)
    {
      NewNameIsSvc(r, tail);
      SvcName(k, chain);
      TopThere(ipTbl.tbl, k);
      serviceChains := serviceChains[service := chain];
      ok := ipTbl.NewChain(chain);
      if !ok {
        return;
      }
      assert !Refers(old(ipTbl.tbl), parent, chain);
      InstalledInSteps(old(ipTbl.tbl), k, parent, chain, args);
      ok := ipTbl.AppendUnique(parent, Jump(chain));
      ok := ipTbl.AppendUnique(chain, args);
      flushRequired := true;
    }

    /** The top-level chains and rules are put in place. */
    method PrepareTop(chainMap: set<string>) returns (ok: bool, rest: set<string>)
      requires Inv(ipTbl.tbl)
      requires forall c :: IsTop(c) ==> (c in chainMap <==> c in ipTbl.tbl)
      modifies ipTbl
      ensures ok && ipTbl.tbl == Prepared(old(ipTbl.tbl))
      ensures rest == chainMap - {Top(Me), Top(Ingress), Top(Egress)}
    {
      TopsDiffer(Me, Ingress);
      TopsDiffer(Ingress, Egress);
      TopsDiffer(Egress, Me);
      BuiltinsNotTop(POSTROUTING, Me);
      ok, rest := PlaceTop(POSTROUTING, OUTPUT, PREROUTING, Top(Me), Top(Ingress), Top(Egress), chainMap);
    }

    method PlaceChain(c: string, chainMap: set<string>) returns (rest: set<string>)
      requires c in chainMap <==> c in ipTbl.tbl
      modifies ipTbl
      ensures ipTbl.tbl == WithChain(old(ipTbl.tbl), c) && rest == chainMap - {c}
    {
      if c !in chainMap {
        var ok := ipTbl.NewChain(c);
      }
      rest := chainMap - {c};
    }

    method PlaceTop(post: string, outs: string, pre: string, me: string, ing: string, eg: string, chainMap: set<string>)
      returns (ok: bool, rest: set<string>)
      requires post in ipTbl.tbl && outs in ipTbl.tbl && pre in ipTbl.tbl
      requires me != ing && me != eg && ing != eg
      requires forall c :: c == me || c == ing || c == eg ==> (c in chainMap <==> c in ipTbl.tbl)
      modifies ipTbl
      ensures ok && ipTbl.tbl == PreparedWith(old(ipTbl.tbl), post, outs, pre, me, ing, eg)
      ensures rest == chainMap - {me, ing, eg}
    {
      ok := ipTbl.AppendUnique(post, Masquerade);
      rest := PlaceChain(me, chainMap);
      rest := PlaceChain(ing, rest);
      rest := PlaceChain(eg, rest);
      ok := ipTbl.AppendUnique(outs, Jump(me));
      ok := ipTbl.AppendUnique(pre, Jump(ing));
      ok := ipTbl.AppendUnique(pre, Jump(eg));
    }

    /** One more stored rule is handled; ghosts tell how far the others have brought the table. */
    method HandleNext(ghost tbl0: Table, ghost services0: map<string, string>, ghost db: seq<LbRule>,
                      ghost tails: seq<string>,
                      ghost i: nat, ghost made0: seq<string>, r: LbRule, tail: string, chainMap: set<string>)
      returns (ok: bool, rest: set<string>, ghost made: seq<string>)
      requires i < |db| == |tails| && db[i] == r && tails[i] == tail && Fits(r, tail)
      requires Progress(tbl0, services0, Now(chainMap), db[..i], made0) && GrownBy(tbl0, ipTbl.tbl, db, tails, i)
      modifies this`serviceChains, this`flushRequired, ipTbl
      ensures ok ==> Progress(tbl0, services0, Now(rest), db[..i + 1], made) && GrownBy(tbl0, ipTbl.tbl, db, tails, i + 1)
      ensures !ok ==> Inv(ipTbl.tbl) && MapsToSvc(serviceChains)
      ensures !ok ==> Stopped(tbl0, services0, db, tails, made, old(Now(chainMap)), Now({}))
      ensures AllSupported(db) && (FreshNames(tbl0, db, tails) || UpToDate(tbl0, services0, db)) ==> ok
    {
      ghost var s := Now(chainMap);
      made := made0;
      PrefixGrows(db, i);
      ok, rest := RefreshLbRulesHandler(r, tail, chainMap);
      if ok {
        GrowsByOne(tbl0, s, db, tails, i);
        StepKeeps(tbl0, services0, s, db[..i], made0, r, tail);
        made := made0 + [ChainOf(s, r, tail)];
      } else {
        StopsOnlyIf(tbl0, services0, db, tails, made0, s, i);
      }
    }

    /** The stored rules are handled one by one, until one fails. */
    method HandleAll(db: seq<LbRule>, tails: seq<string>, chainMap: set<string>)
      returns (ok: bool, rest: set<string>, ghost made: seq<string>, ghost last: State)
      requires |tails| == |db| && forall i :: 0 <= i < |db| ==> Fits(db[i], tails[i])
      requires Progress(ipTbl.tbl, serviceChains, Now(chainMap), [], [])
      modifies this`serviceChains, this`flushRequired, ipTbl
      ensures Inv(ipTbl.tbl) && MapsToSvc(serviceChains)
      ensures ok ==> Progress(old(ipTbl.tbl), old(serviceChains), Now(rest), db, made)
      ensures !ok ==> Stopped(old(ipTbl.tbl), old(serviceChains), db, tails, made, last, Now({}))
      ensures !AllSupported(db) ==> !ok
      ensures AllSupported(db) && (FreshNames(old(ipTbl.tbl), db, tails) || UpToDate(old(ipTbl.tbl), old(serviceChains), db))
              ==> ok
    {
      ghost var tbl0, services0 := ipTbl.tbl, serviceChains;
      rest, made, last := chainMap, [], Now(chainMap);
      WholeOf(db);
      for i := 0 to |db|
        invariant Progress(tbl0, services0, Now(rest), db[..i], made)
        invariant GrownBy(tbl0, ipTbl.tbl, db, tails, i)
      {
        last := Now(rest);
        ok, rest, made := HandleNext(tbl0, services0, db, tails, i, made, db[i], tails[i], rest);
        if !ok {
          return;
        }
      }
      ok := true;
    }

    /** The chains no rule has claimed are taken out, in any order. */
    method Sweep(chainMap: set<string>)
      requires Inv(ipTbl.tbl) && HasTops(ipTbl.tbl)
      requires forall c :: c in chainMap ==> c in ipTbl.tbl && Svc(c)
      modifies ipTbl
      ensures Sweeping(old(ipTbl.tbl), chainMap, ipTbl.tbl, {})
    {
      var rest := chainMap;
      while rest != {}
        invariant Sweeping(old(ipTbl.tbl), chainMap, ipTbl.tbl, rest)
        decreases rest
      {
        var chain :| chain in rest;
        SweepKeeps(old(ipTbl.tbl), chainMap, ipTbl.tbl, rest, chain);
        RemoveChain(chain);
        rest := rest - {chain};
      }
    }

    method RemoveChain(chain: string)
      requires Inv(ipTbl.tbl) && chain in ipTbl.tbl && Svc(chain)
      modifies ipTbl
      ensures Parent(chain) in old(ipTbl.tbl) && ipTbl.tbl == Uninstalled(old(ipTbl.tbl), chain)
    {
      UnhookedAlone(ipTbl.tbl, chain);
      TopsDiffer(KindOf(chain), KindOf(chain));
      var parentChain :=
        if Contains(chain, Prefix(Ingress)) then Top(Ingress)
        else if Contains(chain, Prefix(Egress)) then Top(Egress)
        else Top(Me);
      RemoveFrom(parentChain, chain);
    }

    /** The chain is taken from the parent, emptied and deleted, where nothing else leads to it. */
    method RemoveFrom(parentChain: string, chain: string)
      requires parentChain in ipTbl.tbl && chain in ipTbl.tbl && chain != parentChain && Jump(chain) in ipTbl.tbl[parentChain]
      requires Jump(chain) !in RemoveFirst(ipTbl.tbl[parentChain], Jump(chain))
      requires forall d :: Refers(ipTbl.tbl, d, chain) ==> d == parentChain
      modifies ipTbl
      ensures ipTbl.tbl == old(ipTbl.tbl)[parentChain := RemoveFirst(old(ipTbl.tbl)[parentChain], Jump(chain))] - {chain}
    {
      ghost var before := ipTbl.tbl;
      var ok := ipTbl.Delete(parentChain, Jump(chain));
      ipTbl.ClearChain(chain);
      forall d | d in ipTbl.tbl ensures !Refers(ipTbl.tbl, d, chain) {
        assert d != parentChain && d != chain ==> !Refers(before, d, chain);
      }
      ok := ipTbl.DeleteChain(chain);
    }

    /** A refresh. Whether it succeeds or not, chains and jumps stay as the invariant has them. If it
        succeeds, each stored rule has its own chain and no other service chain is left; connections
        are flushed exactly when a chain had to be made; and where nothing had to be made and no chain
        had to go, nothing changes. */
    method RefreshLbRules(db: seq<LbRule>, tails: seq<string>) returns (ok: bool, ghost made: seq<string>, ghost last: State)
      requires |tails| == |db| && forall i :: 0 <= i < |db| ==> Fits(db[i], tails[i])
      requires Inv(ipTbl.tbl) && MapsToSvc(serviceChains)
      modifies this, ipTbl
      ensures Inv(ipTbl.tbl) && MapsToSvc(serviceChains)
      ensures !AllSupported(db) ==> !ok
      ensures AllSupported(db) && (FreshNames(old(ipTbl.tbl), db, tails) || UpToDate(old(ipTbl.tbl), old(serviceChains), db))
              ==> ok
      ensures ok ==> Reconciled(ipTbl.tbl, serviceChains, db, made) && !flushRequired
      ensures ok ==> (flushes == old(flushes) <==> UpToDate(old(ipTbl.tbl), old(serviceChains), db))
      ensures old(flushes) <= flushes <= old(flushes) + if ok then 1 else 0
      ensures !ok ==> Stopped(Prepared(old(ipTbl.tbl)), old(serviceChains), db, tails, made, last, Now({}))
      ensures ok && NothingToDo(old(ipTbl.tbl), old(serviceChains), db)
              ==> ipTbl.tbl == old(ipTbl.tbl) && serviceChains == old(serviceChains)
      ensures ok ==> ForeignKept(old(ipTbl.tbl), ipTbl.tbl)
    {
      ghost var tbl, services := ipTbl.tbl, serviceChains;
      var rest := Start();
      FreshAsPrepared(tbl, db, tails);
      ok, made, last := Reconcile(tbl, db, tails, rest);
    }

    /** After a refresh that failed connections are flushed by the next that succeeds exactly when that finds
        something to make; what the failed one made is not counted. */
    method RefreshTwice(db: seq<LbRule>, tails: seq<string>, again: seq<LbRule>, tailsAgain: seq<string>)
      returns (first: bool, second: bool, ghost made: seq<string>, ghost last: State, ghost mid: State)
      requires |tails| == |db| && forall i :: 0 <= i < |db| ==> Fits(db[i], tails[i])
      requires |tailsAgain| == |again| && forall i :: 0 <= i < |again| ==> Fits(again[i], tailsAgain[i])
      requires Inv(ipTbl.tbl) && MapsToSvc(serviceChains)
      modifies this, ipTbl
      ensures Inv(ipTbl.tbl) && MapsToSvc(serviceChains)
      ensures !AllSupported(db) ==> !first
      ensures !first ==> Stopped(Prepared(old(ipTbl.tbl)), old(serviceChains), db, tails, made, last, mid)
      ensures second ==> AllSupported(again)
      ensures AllSupported(again) && UpToDate(mid.tbl, mid.services, again) ==> second
      ensures second && !first ==> (flushes == old(flushes) <==> UpToDate(mid.tbl, mid.services, again))
      ensures second ==> exists c :: Reconciled(ipTbl.tbl, serviceChains, again, c)
    {
      first, made, last := RefreshLbRules(db, tails);
      mid := Now({});
      ghost var chains, stopped;
      second, chains, stopped := RefreshLbRules(again, tailsAgain);
    }

    /** A rule that is not current and an unsupported one, and then the first rule alone: a chain is made,
        and no connection is ever flushed. */
    method FlushLost(a: LbRule, x: LbRule, tail: string, tailAgain: string)
      requires Supported(a) && !Supported(x) && Fits(a, tail) && Fits(a, tailAgain)
      requires Inv(ipTbl.tbl) && MapsToSvc(serviceChains) && NewName(a, tail) !in ipTbl.tbl
      requires !Current(ipTbl.tbl, serviceChains, a)
      modifies this, ipTbl
      ensures Current(ipTbl.tbl, serviceChains, a)
      ensures flushes == old(flushes)
    {
      ghost var tbl, services := ipTbl.tbl, serviceChains;
      var db, tails := [a] + [x], [tail] + [""];
      assert db[0] == a && db[1] == x && tails[0] == tail;
      var first, second;
      ghost var made, last, mid;
      first, second, made, last, mid := RefreshTwice(db, tails, [a], [tailAgain]);
      OneRuleAfterFailure(tbl, services, a, x, tail, made, last, mid);
      ghost var c :| Reconciled(ipTbl.tbl, serviceChains, [a], c);
      OneRuleCurrent(ipTbl.tbl, serviceChains, a, c);
    }

    /** The stored rules are handled and, if that succeeds, unclaimed chains taken out and connections
        flushed if a chain was made. */
    method Reconcile(ghost tbl: Table, db: seq<LbRule>, tails: seq<string>, chainMap: set<string>) returns (ok: bool,
                     ghost made: seq<string>, ghost last: State)
      requires |tails| == |db| && forall i :: 0 <= i < |db| ==> Fits(db[i], tails[i])
      requires Inv(tbl) && MapsToSvc(serviceChains) && ipTbl.tbl == Prepared(tbl) && TopLevel(ipTbl.tbl)
      requires Progress(ipTbl.tbl, serviceChains, Now(chainMap), [], [])
      modifies this`serviceChains, this`flushRequired, this`flushes, ipTbl
      ensures Inv(ipTbl.tbl) && MapsToSvc(serviceChains)
      ensures !AllSupported(db) ==> !ok
      ensures AllSupported(db) && (FreshNames(old(ipTbl.tbl), db, tails) || UpToDate(tbl, old(serviceChains), db)) ==> ok
      ensures ok ==> Reconciled(ipTbl.tbl, serviceChains, db, made) && !flushRequired
      ensures ok ==> (flushes == old(flushes) <==> UpToDate(tbl, old(serviceChains), db))
      ensures old(flushes) <= flushes <= old(flushes) + if ok then 1 else 0
      ensures !ok ==> Stopped(old(ipTbl.tbl), old(serviceChains), db, tails, made, last, Now({}))
      ensures ok && NothingToDo(tbl, old(serviceChains), db) ==> ipTbl.tbl == tbl && serviceChains == old(serviceChains)
      ensures ok ==> ForeignKept(tbl, ipTbl.tbl)
    {
      ghost var services := serviceChains;
      var rest;
      if AllSupported(db) { UpToDateAsPrepared(tbl, services, db); }
      ok, rest, made, last := HandleAll(db, tails, chainMap);
      if ok {
        Finish(tbl, services, db, made, rest);
      }
    }

    /** Our chains are listed and marked, and the top level is put in place. */
    method Start() returns (rest: set<string>)
      requires Inv(ipTbl.tbl) && MapsToSvc(serviceChains)
      modifies this`flushRequired, ipTbl
      ensures Inv(old(ipTbl.tbl)) && ipTbl.tbl == Prepared(old(ipTbl.tbl)) && TopLevel(ipTbl.tbl)
      ensures Progress(ipTbl.tbl, serviceChains, Now(rest), [], [])
    {
      ghost var tbl := ipTbl.tbl;
      var chains := ipTbl.ListChains();
      rest := set c | c in chains && Contains(c, MEEP_PREFIX);
      TopsMarked(tbl, rest);
      var ok;
      ok, rest := PrepareTop(rest);
      flushRequired := false;
      Begins(tbl, serviceChains);
    }

    /** Unclaimed chains are taken out. */
    method Conclude(ghost tbl: Table, ghost services: map<string, string>, ghost db: seq<LbRule>, ghost made: seq<string>,
                    rest: set<string>)
      requires Inv(tbl) && MapsToSvc(services) && TopLevel(Prepared(tbl))
      requires Progress(Prepared(tbl), services, Now(rest), db, made)
      modifies ipTbl
      ensures Reconciled(ipTbl.tbl, serviceChains, db, made)
      ensures flushRequired <==> !UpToDate(tbl, services, db)
      ensures NothingToDo(tbl, services, db) ==> ipTbl.tbl == tbl && serviceChains == services
      ensures ForeignKept(tbl, ipTbl.tbl)
    {
      ghost var s := Now(rest);
      Sweep(rest);
      Ends(tbl, services, s, db, made, ipTbl.tbl);
    }

    /** Unclaimed chains are taken out, and connections flushed if a chain was made. */
    method Finish(ghost tbl: Table, ghost services: map<string, string>, ghost db: seq<LbRule>, ghost made: seq<string>,
                  rest: set<string>)
      requires Inv(tbl) && MapsToSvc(services) && TopLevel(Prepared(tbl))
      requires Progress(Prepared(tbl), services, Now(rest), db, made)
      modifies this`flushRequired, this`flushes, ipTbl
      ensures Reconciled(ipTbl.tbl, serviceChains, db, made) && !flushRequired
      ensures flushes == old(flushes) <==> UpToDate(tbl, services, db)
      ensures old(flushes) <= flushes <= old(flushes) + 1
      ensures NothingToDo(tbl, services, db) ==> ipTbl.tbl == tbl && serviceChains == services
      ensures ForeignKept(tbl, ipTbl.tbl)
    {
      Conclude(tbl, services, db, made, rest);
      FlushIfRequired();
    }

    /** Tracked connections are flushed if a chain was made. */
    method FlushIfRequired()
      modifies this`flushRequired, this`flushes
      ensures !flushRequired && flushes == old(flushes) + if old(flushRequired) then 1 else 0
    {
      if flushRequired {
        flushes := flushes + 1;
        flushRequired := false;
      }
    }
  }

  lemma TopsMarked(tbl: Table, marked: set<string>)
    requires marked == set c | c in tbl && Contains(c, MEEP_PREFIX)
    ensures forall c :: IsTop(c) ==> (c in marked <==> c in tbl)
    ensures marked - {Top(Me), Top(Ingress), Top(Egress)} == Marked(tbl)
  {
    forall c | IsTop(c) ensures Contains(c, MEEP_PREFIX) {
      assert IsAt(c, MEEP_PREFIX, 0);
    }
  }
}
