/** The reconciliation of the service chains with the stored load-balancing rules: a mark and sweep. */
module LbReconciler {
  import opened Common
  import opened Text
  import opened LbChains

  // ----- Stored rules

  /** A rule as stored for the pod. */
  datatype LbRule = LbRule(svcType: string, svcName: string, svcIp: string, protocol: string, port: string,
                           lbIp: string, lbPort: string)

  function TypeKind(svcType: string): Option<Kind> {
    if svcType == "INGRESS-SVC" then Some(Ingress)
    else if svcType == "EGRESS-SVC" then Some(Egress)
    else if svcType == "ME-SVC" then Some(Me)
    else None
  }

  predicate Supported(r: LbRule) {
    TypeKind(r.svcType).Some?
  }

  function RuleKind(r: LbRule): Kind
    requires Supported(r)
  {
    TypeKind(r.svcType).value
  }

  function ServiceOf(r: LbRule): string
    requires Supported(r)
  {
    SvcPrefix(RuleKind(r)) + Upper(r.svcName) + "-" + r.port
  }

  function DnatOf(r: LbRule): Rule
    requires Supported(r)
  {
    Dnat(r.protocol, r.svcIp, r.port, r.lbIp, r.lbPort, ServiceOf(r))
  }

  /** The random part of a chain name drawn for a rule. */
  predicate Fits(r: LbRule, tail: string) {
    Supported(r) ==> |tail| == MAX_CHAIN_LEN - |SvcPrefix(RuleKind(r))| && AllCapitals(tail)
  }

  function NewName(r: LbRule, tail: string): string
    requires Supported(r)
  {
    SvcPrefix(RuleKind(r)) + tail
  }

  lemma NewNameIsSvc(r: LbRule, tail: string)
    requires Supported(r) && Fits(r, tail)
    ensures IsSvc(RuleKind(r), NewName(r, tail)) && Svc(NewName(r, tail))
  {
    assert NewName(r, tail)[|SvcPrefix(RuleKind(r))|..] == tail;
    SvcName(RuleKind(r), NewName(r, tail));
  }

  /** The chain of a rule has 25 characters and starts with the name of the rule's type. */
  lemma ChainNamed(r: LbRule, tail: string)
    requires Supported(r) && Fits(r, tail)
    ensures r.svcType in {"ME-SVC", "INGRESS-SVC", "EGRESS-SVC"} && |NewName(r, tail)| == 25
    ensures r.svcType == "ME-SVC" ==> "MEEP-ME-SVC-" <= NewName(r, tail) && Top(RuleKind(r)) == "MEEP-ME-SERVICES"
    ensures r.svcType == "INGRESS-SVC" ==>
      "MEEP-INGRESS-SVC-" <= NewName(r, tail) && Top(RuleKind(r)) == "MEEP-INGRESS-SERVICES"
    ensures r.svcType == "EGRESS-SVC" ==>
      "MEEP-EGRESS-SVC-" <= NewName(r, tail) && Top(RuleKind(r)) == "MEEP-EGRESS-SERVICES"
  {
  }

  /** Two rules have one service string exactly if they have one type and port and names that differ in case alone. */
  lemma ServiceStringsExactly(a: LbRule, b: LbRule)
    requires Supported(a) && Supported(b) && '-' !in a.port && '-' !in b.port
    ensures ServiceOf(a) == ServiceOf(b)
      <==> a.svcType == b.svcType && a.port == b.port && Upper(a.svcName) == Upper(b.svcName)
  {
    if ServiceOf(a) == ServiceOf(b) {
      ServicePrefixed(a);
      ServicePrefixed(b);
      PrefixTellsKind(RuleKind(a), RuleKind(b), ServiceOf(a));
      var n := |SvcPrefix(RuleKind(a))|;
      var s, x, y := ServiceOf(a)[n..], Upper(a.svcName), Upper(b.svcName);
      assert s == x + "-" + a.port && s == y + "-" + b.port;
      LastDash(x, a.port, y, b.port);
      LastDash(y, b.port, x, a.port);
      assert s[..|x|] == x && s[|x| + 1..] == a.port && s[..|y|] == y && s[|y| + 1..] == b.port;
    }
  }

  lemma LastDash(x: string, p: string, y: string, q: string)
    requires x + "-" + p == y + "-" + q && '-' !in p
    ensures |y| <= |x|
  {
    var s := x + "-" + p;
    assert s == y + "-" + q && s[|y|] == '-';
    assert forall i :: |x| < i < |s| ==> s[i] == p[i - |x| - 1];
    assert forall i :: |x| < i < |s| ==> s[i] != '-';
  }

  // ----- One rule

  /** What the handler works on: the table, the chain last made for each service, the chains found at
      the start that no rule has claimed yet, and whether connections must be flushed. */
  datatype State = State(tbl: Table, services: map<string, string>, rest: set<string>, changed: bool)

  /** The chain of the rule's service is there, unclaimed, and holds the rule. */
  predicate Kept(s: State, r: LbRule)
    requires Supported(r)
  {
    && ServiceOf(r) in s.services && s.services[ServiceOf(r)] in s.rest
    && s.services[ServiceOf(r)] in s.tbl && DnatOf(r) in s.tbl[s.services[ServiceOf(r)]]
  }

  predicate CanStep(s: State, r: LbRule, tail: string) {
    Supported(r) && HasTops(s.tbl) && (Kept(s, r) || NewName(r, tail) !in s.tbl)
  }

  function ChainOf(s: State, r: LbRule, tail: string): string
    requires Supported(r)
  {
    if Kept(s, r) then s.services[ServiceOf(r)] else NewName(r, tail)
  }

  function Step(s: State, r: LbRule, tail: string): State
    requires CanStep(s, r, tail)
  {
    var c := ChainOf(s, r, tail);
    if Kept(s, r) then s.(rest := s.rest - {c})
    else State(Installed(s.tbl, RuleKind(r), c, DnatOf(r)), s.services[ServiceOf(r) := c], s.rest, true)
  }

  // ----- What holds between rules

  predicate AllSupported(db: seq<LbRule>) {
    forall i :: 0 <= i < |db| ==> Supported(db[i])
  }

  /** No two stored rules are for the same service string. */
  predicate DistinctServices(db: seq<LbRule>)
    requires AllSupported(db)
  {
    forall i, j :: 0 <= i < j < |db| ==> ServiceOf(db[i]) != ServiceOf(db[j])
  }

  /** The rule's service is mapped to a chain of the table that holds the rule. */
  predicate Current(tbl: Table, services: map<string, string>, r: LbRule)
    requires Supported(r)
  {
    && ServiceOf(r) in services && services[ServiceOf(r)] in tbl
    && DnatOf(r) in tbl[services[ServiceOf(r)]]
  }

  /** Nothing is to be made: services are distinct and every rule is current. */
  ghost predicate UpToDate(tbl: Table, services: map<string, string>, db: seq<LbRule>)
    requires AllSupported(db)
  {
    DistinctServices(db) && forall i :: 0 <= i < |db| ==> Current(tbl, services, db[i])
  }

  /** Service strings are mapped to names of service chains. */
  ghost predicate MapsToSvc(services: map<string, string>) {
    forall k :: k in services ==> Svc(services[k])
  }

  /** The chain of one handled rule: of its kind, and holding that rule alone. */
  ghost predicate Serves(tbl: Table, c: string, r: LbRule) {
    Supported(r) && IsSvc(RuleKind(r), c) && c in tbl && tbl[c] == [DnatOf(r)]
  }

  /** Each rule handled has a chain of its own. */
  ghost predicate OneEach(tbl: Table, done: seq<LbRule>, made: seq<string>) {
    && |made| == |done|
    && (forall i :: 0 <= i < |done| ==> Serves(tbl, made[i], done[i]))
    && (forall i, j :: 0 <= i < j < |done| ==> made[i] != made[j])
  }

  /** The services of the rules handled are mapped to chains made for them, the last one for each. */
  ghost predicate MappedToLast(services: map<string, string>, done: seq<LbRule>, made: seq<string>)
    requires AllSupported(done) && |made| == |done|
  {
    forall i :: 0 <= i < |done| ==> MappedAt(services, done, made, i)
  }

  /** The service chains are those unclaimed and those made or kept; the table at the start is there
      still, but for jumps in the top chains. */
  ghost predicate Tracks(tbl0: Table, tbl: Table, rest: set<string>, made: seq<string>) {
    && (forall c :: c in rest ==> c in tbl && Svc(c) && c !in made)
    && (forall c :: c in tbl && Svc(c) ==> c in rest || c in made)
    && (forall c :: c in tbl0 && !IsTop(c) ==> c in tbl && tbl[c] == tbl0[c])
    && (forall c :: c in tbl && !Svc(c) ==> c in tbl0)
  }

  /** What holds after some rules, from a table and a mapping at the start. */
  ghost predicate Progress(tbl0: Table, services0: map<string, string>, s: State, done: seq<LbRule>, made: seq<string>) {
    && Inv(s.tbl) && HasTops(s.tbl) && MapsToSvc(s.services) && AllSupported(done)
    && Tracks(tbl0, s.tbl, s.rest, made)
    && OneEach(s.tbl, done, made)
    && MappedToLast(s.services, done, made)
    && (!s.changed ==> s.tbl == tbl0 && s.services == services0)
    && (s.changed <==> !UpToDate(tbl0, services0, done))
  }

  // ----- One more rule

  lemma PrefixTellsKind(k: Kind, m: Kind, service: string)
    requires SvcPrefix(k) <= service && SvcPrefix(m) <= service
    ensures k == m
  {
    assert service[5] == SvcPrefix(k)[5] && service[5] == SvcPrefix(m)[5];
  }

  /** A kept chain is of the rule's kind and holds the rule alone. */
  lemma KeptServes(s: State, r: LbRule)
    requires Inv(s.tbl) && Supported(r) && Kept(s, r) && Svc(s.services[ServiceOf(r)])
    ensures Serves(s.tbl, s.services[ServiceOf(r)], r)
  {
    var c := s.services[ServiceOf(r)];
    assert Hung(s.tbl, c);
    HungServes(s.tbl, c, r);
  }

  lemma HungServes(tbl: Table, c: string, r: LbRule)
    requires Hung(tbl, c) && Svc(c) && Supported(r) && DnatOf(r) in tbl[c]
    ensures Serves(tbl, c, r)
  {
    assert tbl[c] == [tbl[c][0]];
    ServicePrefixed(r);
    PrefixTellsKind(RuleKind(r), KindOf(c), ServiceOf(r));
  }

  lemma DistinctMore(db: seq<LbRule>, r: LbRule)
    requires AllSupported(db) && Supported(r)
    ensures AllSupported(db + [r])
    ensures DistinctServices(db + [r])
      <==> DistinctServices(db) && forall i :: 0 <= i < |db| ==> ServiceOf(db[i]) != ServiceOf(r)
  {
    var more := db + [r];
    if DistinctServices(more) {
      forall i, j | 0 <= i < j < |db| ensures ServiceOf(db[i]) != ServiceOf(db[j]) {
        assert more[i] == db[i] && more[j] == db[j];
      }
      forall i | 0 <= i < |db| ensures ServiceOf(db[i]) != ServiceOf(r) {
        assert more[i] == db[i] && more[|db|] == r;
      }
    }
  }

  lemma UpToDateMore(tbl: Table, services: map<string, string>, db: seq<LbRule>, r: LbRule)
    requires AllSupported(db) && Supported(r)
    ensures AllSupported(db + [r])
    ensures UpToDate(tbl, services, db + [r])
      <==> UpToDate(tbl, services, db) && Current(tbl, services, r)
           && forall i :: 0 <= i < |db| ==> ServiceOf(db[i]) != ServiceOf(r)
  {
    DistinctMore(db, r);
    var more := db + [r];
    if UpToDate(tbl, services, more) {
      assert more[|db|] == r;
      forall i | 0 <= i < |db| ensures Current(tbl, services, db[i]) { assert more[i] == db[i]; }
    }
  }

  /** A chain that holds a rule and was claimed before was claimed for the same service. */
  lemma ServedBefore(tbl: Table, done: seq<LbRule>, made: seq<string>, c: string, r: LbRule)
    requires AllSupported(done) && OneEach(tbl, done, made) && c in made && Supported(r) && c in tbl && DnatOf(r) in tbl[c]
    ensures exists k :: 0 <= k < |done| && ServiceOf(done[k]) == ServiceOf(r)
  {
    var k :| 0 <= k < |made| && made[k] == c;
    assert Serves(tbl, made[k], done[k]);
    assert DnatOf(done[k]) == DnatOf(r);
  }

  /** A rule handled makes a change exactly when something is to be made with it counted in. */
  lemma StepChanges(tbl0: Table, services0: map<string, string>, s: State, done: seq<LbRule>, made: seq<string>,
                    r: LbRule)
    requires Progress(tbl0, services0, s, done, made) && Supported(r)
    ensures AllSupported(done + [r])
    ensures s.changed || !Kept(s, r) <==> !UpToDate(tbl0, services0, done + [r])
  {
    UpToDateMore(tbl0, services0, done, r);
    if !s.changed && Current(tbl0, services0, r) && s.services[ServiceOf(r)] in made {
      ServedBefore(s.tbl, done, made, s.services[ServiceOf(r)], r);
    }
    if !s.changed && Kept(s, r) {
      forall i | 0 <= i < |done| ensures ServiceOf(done[i]) != ServiceOf(r) {
        assert MappedAt(s.services, done, made, i);
      }
    }
  }

  /** The service of a rule is mapped to a chain made, to its own if no later rule is for the service. */
  ghost predicate MappedAt(services: map<string, string>, done: seq<LbRule>, made: seq<string>, i: nat)
    requires AllSupported(done) && |made| == |done| && i < |done|
  {
    && ServiceOf(done[i]) in services && services[ServiceOf(done[i])] in made
    && (LastFor(done, i) ==> services[ServiceOf(done[i])] == made[i])
  }

  ghost predicate LastFor(done: seq<LbRule>, i: nat)
    requires AllSupported(done) && i < |done|
  {
    forall j :: i < j < |done| ==> ServiceOf(done[j]) != ServiceOf(done[i])
  }

  lemma MappedMore(services: map<string, string>, done: seq<LbRule>, made: seq<string>, r: LbRule, c: string)
    requires AllSupported(done) && |made| == |done| && MappedToLast(services, done, made) && Supported(r)
    ensures AllSupported(done + [r])
    ensures MappedToLast(services[ServiceOf(r) := c], done + [r], made + [c])
  {
    var more, mades, mapped := done + [r], made + [c], services[ServiceOf(r) := c];
    forall i | 0 <= i < |more| ensures MappedAt(mapped, more, mades, i) {
      MappedMoreAt(services, done, made, r, c, i);
    }
  }

  lemma MappedMoreAt(services: map<string, string>, done: seq<LbRule>, made: seq<string>, r: LbRule, c: string, i: nat)
    requires AllSupported(done) && |made| == |done| && Supported(r) && i <= |done|
    requires i < |done| ==> MappedAt(services, done, made, i)
    ensures AllSupported(done + [r]) && MappedAt(services[ServiceOf(r) := c], done + [r], made + [c], i)
  {
    var more, mades := done + [r], made + [c];
    assert more[|done|] == r && mades[|done|] == c;
    if i < |done| && ServiceOf(done[i]) != ServiceOf(r) {
      assert services[ServiceOf(done[i])] in made;
      if LastFor(more, i) {
        forall j | i < j < |done| ensures ServiceOf(done[j]) != ServiceOf(done[i]) { assert more[j] == done[j]; }
      }
    }
  }

  lemma OneEachMore(tbl: Table, tbl': Table, done: seq<LbRule>, made: seq<string>, r: LbRule, c: string)
    requires OneEach(tbl, done, made) && Serves(tbl', c, r) && c !in made
    requires forall e :: e in made ==> e in tbl' && tbl'[e] == tbl[e]
    ensures OneEach(tbl', done + [r], made + [c])
  {
    var more, mades := done + [r], made + [c];
    forall i | 0 <= i < |more| ensures Serves(tbl', mades[i], more[i]) {
      if i < |done| {
        assert Serves(tbl, made[i], done[i]) && made[i] in made;
      }
    }
    forall i, j | 0 <= i < j < |more| ensures mades[i] != mades[j] {
      assert made[i] in made;
    }
  }

  lemma KeepStep(tbl0: Table, services0: map<string, string>, s: State, done: seq<LbRule>, made: seq<string>,
                 r: LbRule, tail: string)
    requires Progress(tbl0, services0, s, done, made) && CanStep(s, r, tail) && Kept(s, r)
    ensures Progress(tbl0, services0, Step(s, r, tail), done + [r], made + [ChainOf(s, r, tail)])
  {
    var c := s.services[ServiceOf(r)];
    KeptServes(s, r);
    StepChanges(tbl0, services0, s, done, made, r);
    MappedMore(s.services, done, made, r, c);
    assert s.services[ServiceOf(r) := c] == s.services;
    OneEachMore(s.tbl, s.tbl, done, made, r, c);
  }

  lemma ServicePrefixed(r: LbRule)
    requires Supported(r)
    ensures SvcPrefix(RuleKind(r)) <= ServiceOf(r)
  {
  }

  lemma TopsGrow(tbl: Table, after: Table)
    requires HasTops(tbl) && forall c :: c in tbl ==> c in after
    ensures HasTops(after)
  {
  }

  /** A chain made for a rule joins those there are, in a table that keeps the invariant. */
  lemma MakeChain(tbl: Table, done: seq<LbRule>, made: seq<string>, r: LbRule, tail: string)
    requires Inv(tbl) && HasTops(tbl) && OneEach(tbl, done, made)
    requires Supported(r) && Fits(r, tail) && NewName(r, tail) !in tbl
    ensures Svc(NewName(r, tail)) && Top(RuleKind(r)) in tbl
    ensures var t := Installed(tbl, RuleKind(r), NewName(r, tail), DnatOf(r));
      Inv(t) && HasTops(t) && OneEach(t, done + [r], made + [NewName(r, tail)])
  {
    var k, c := RuleKind(r), NewName(r, tail);
    TopThere(tbl, k);
    NewNameIsSvc(r, tail);
    ServicePrefixed(r);
    InstallKeeps(tbl, k, c, DnatOf(r));
    TopsGrow(tbl, Installed(tbl, k, c, DnatOf(r)));
    MadeAreOther(tbl, done, made, c);
    OneEachMore(tbl, Installed(tbl, k, c, DnatOf(r)), done, made, r, c);
  }

  lemma MakeStep(tbl0: Table, services0: map<string, string>, s: State, done: seq<LbRule>, made: seq<string>,
                 r: LbRule, tail: string)
    requires Progress(tbl0, services0, s, done, made) && CanStep(s, r, tail) && Fits(r, tail) && !Kept(s, r)
    ensures Progress(tbl0, services0, Step(s, r, tail), done + [r], made + [ChainOf(s, r, tail)])
  {
    MakeChain(s.tbl, done, made, r, tail);
    StepChanges(tbl0, services0, s, done, made, r);
    MappedMore(s.services, done, made, r, NewName(r, tail));
    TracksInstalled(tbl0, s.tbl, s.rest, made, RuleKind(r), NewName(r, tail), DnatOf(r));
  }

  lemma TracksInstalled(tbl0: Table, tbl: Table, rest: set<string>, made: seq<string>, k: Kind, c: string, r: Rule)
    requires Tracks(tbl0, tbl, rest, made) && Top(k) in tbl && Svc(c) && c !in tbl
    ensures Tracks(tbl0, Installed(tbl, k, c, r), rest, made + [c])
  {
  }

  lemma MadeAreOther(tbl: Table, done: seq<LbRule>, made: seq<string>, c: string)
    requires OneEach(tbl, done, made) && c !in tbl
    ensures forall e :: e in made ==> e in tbl && e != c && !IsTop(e)
  {
    forall e | e in made ensures e in tbl && e != c && !IsTop(e) {
      var i :| 0 <= i < |made| && made[i] == e;
      assert Serves(tbl, made[i], done[i]);
      SvcName(RuleKind(done[i]), e);
    }
  }

  /** Each rule handled keeps what holds between rules. */
  lemma StepKeeps(tbl0: Table, services0: map<string, string>, s: State, done: seq<LbRule>, made: seq<string>,
                  r: LbRule, tail: string)
    requires Progress(tbl0, services0, s, done, made) && CanStep(s, r, tail) && Fits(r, tail)
    ensures Progress(tbl0, services0, Step(s, r, tail), done + [r], made + [ChainOf(s, r, tail)])
  {
    if Kept(s, r) {
      KeepStep(tbl0, services0, s, done, made, r, tail);
    } else {
      MakeStep(tbl0, services0, s, done, made, r, tail);
    }
  }

  // ----- Sweeping

  /** What holds while unclaimed chains are taken out: rest is what is left of rest1. */
  ghost predicate Sweeping(tbl1: Table, rest1: set<string>, tbl: Table, rest: set<string>) {
    && Inv(tbl) && HasTops(tbl) && rest <= rest1
    && (forall c :: c in rest ==> c in tbl && Svc(c))
    && (forall c :: c in tbl ==> c in tbl1 && (c in rest1 ==> c in rest))
    && (forall c :: c in tbl1 && !IsTop(c) && c !in rest1 ==> c in tbl && tbl[c] == tbl1[c])
    && (rest == rest1 ==> tbl == tbl1)
  }

  lemma SweepKeeps(tbl1: Table, rest1: set<string>, tbl: Table, rest: set<string>, c: string)
    requires Sweeping(tbl1, rest1, tbl, rest) && c in rest
    ensures Parent(c) in tbl && Sweeping(tbl1, rest1, Uninstalled(tbl, c), rest - {c})
  {
    UninstallKeeps(tbl, c);
    TopsStay(tbl, c);
    SweepFrame(tbl1, rest1, tbl, rest, c, Parent(c), Uninstalled(tbl, c));
  }

  lemma TopsStay(tbl: Table, c: string)
    requires HasTops(tbl) && Svc(c)
    ensures IsTop(Parent(c)) && Parent(c) in tbl && HasTops(Uninstalled(tbl, c))
    ensures Uninstalled(tbl, c).Keys == tbl.Keys - {c}
    ensures forall d :: d in tbl && d != c && d != Parent(c) ==> Uninstalled(tbl, c)[d] == tbl[d]
  {
    TopThere(tbl, KindOf(c));
    SvcName(KindOf(c), c);
  }

  lemma SweepFrame(tbl1: Table, rest1: set<string>, tbl: Table, rest: set<string>, c: string, p: string, t: Table)
    requires Sweeping(tbl1, rest1, tbl, rest) && c in rest && Inv(t) && HasTops(t) && IsTop(p)
    requires t.Keys == tbl.Keys - {c} && forall d :: d in tbl && d != c && d != p ==> t[d] == tbl[d]
    ensures Sweeping(tbl1, rest1, t, rest - {c})
  {
    assert c in rest1 && c !in rest - {c};
    forall d | d in tbl1 && !IsTop(d) && d !in rest1 ensures d in t && t[d] == tbl1[d] {
      assert d in tbl && d != c;
    }
  }

  // ----- The reconciled table

  /** Each stored rule has a service chain of its own that hangs from the top chain of the rule's type
      and holds that rule alone; there is no other service chain. */
  ghost predicate Reconciled(tbl: Table, services: map<string, string>, db: seq<LbRule>, made: seq<string>) {
    && Inv(tbl) && TopLevel(tbl) && MapsToSvc(services) && AllSupported(db)
    && OneEach(tbl, db, made) && MappedToLast(services, db, made)
    && (forall c :: c in tbl && Svc(c) ==> c in made)
  }

  /** Every service chain is that of a stored rule. */
  ghost predicate NoOrphans(tbl: Table, services: map<string, string>, db: seq<LbRule>)
    requires AllSupported(db)
  {
    forall c :: c in tbl && Svc(c) ==> exists i :: 0 <= i < |db| && ServiceOf(db[i]) in services && services[ServiceOf(db[i])] == c
  }

  lemma SweptIsReconciled(tbl0: Table, services0: map<string, string>, s: State, db: seq<LbRule>, made: seq<string>,
                          tbl: Table)
    requires Progress(tbl0, services0, s, db, made) && TopLevel(tbl0) && Sweeping(s.tbl, s.rest, tbl, {})
    ensures Reconciled(tbl, s.services, db, made)
  {
    BuiltinsStay(tbl0, s, made, tbl);
    forall i | 0 <= i < |db| ensures Serves(tbl, made[i], db[i]) {
      assert Serves(s.tbl, made[i], db[i]) && made[i] in made;
      SvcName(RuleKind(db[i]), made[i]);
    }
  }

  lemma BuiltinsStay(tbl0: Table, s: State, made: seq<string>, tbl: Table)
    requires TopLevel(tbl0) && Tracks(tbl0, s.tbl, s.rest, made) && Sweeping(s.tbl, s.rest, tbl, {})
    ensures TopLevel(tbl)
  {
    BuiltinStays(tbl0, s, made, tbl, POSTROUTING);
    BuiltinStays(tbl0, s, made, tbl, OUTPUT);
    BuiltinStays(tbl0, s, made, tbl, PREROUTING);
  }

  lemma BuiltinStays(tbl0: Table, s: State, made: seq<string>, tbl: Table, d: string)
    requires Tracks(tbl0, s.tbl, s.rest, made) && Sweeping(s.tbl, s.rest, tbl, {}) && IsBuiltin(d) && d in tbl0
    ensures d in tbl && tbl[d] == tbl0[d]
  {
    BuiltinsNotTop(d, Me);
    BuiltinsNotTop(d, Ingress);
    BuiltinsNotTop(d, Egress);
    if Svc(d) { SvcName(KindOf(d), d); }
  }

  /** Where nothing is to be made and every chain is that of a rule, none is left unclaimed. */
  lemma NothingUnclaimed(tbl0: Table, services0: map<string, string>, s: State, db: seq<LbRule>, made: seq<string>)
    requires Progress(tbl0, services0, s, db, made) && !s.changed && NoOrphans(tbl0, services0, db)
    ensures s.rest == {}
  {
    forall c | c in tbl0 && Svc(c) ensures c in made {
      var i :| 0 <= i < |db| && ServiceOf(db[i]) in services0 && services0[ServiceOf(db[i])] == c;
      assert MappedAt(s.services, db, made, i);
    }
  }

  // ----- The next refresh

  lemma {:induction false} TwiceIsTwoPlaces(s: seq<LbRule>, r: LbRule)
    requires multiset(s)[r] >= 2
    ensures exists i, j :: 0 <= i < j < |s| && s[i] == s[j] == r
  {
    var n := |s| - 1;
    assert s == s[..n] + [s[n]];
    if s[n] == r {
      assert r in multiset(s[..n]);
      var i :| 0 <= i < n && s[..n][i] == r;
      assert s[i] == s[n] == r;
    } else {
      TwiceIsTwoPlaces(s[..n], r);
      var i, j :| 0 <= i < j < n && s[..n][i] == s[..n][j] == r;
      assert s[i] == s[j] == r;
    }
  }

  /** Whether services are distinct does not depend on the order of the store. */
  lemma DistinctInAnyOrder(db: seq<LbRule>, again: seq<LbRule>)
    requires AllSupported(db) && multiset(db) == multiset(again) && DistinctServices(db)
    ensures AllSupported(again) && DistinctServices(again)
  {
    forall i | 0 <= i < |again| ensures again[i] in db {
      assert again[i] in multiset(again);
    }
    forall i, j | 0 <= i < j < |again| ensures ServiceOf(again[i]) != ServiceOf(again[j]) {
      var r, q := again[i], again[j];
      if r == q {
        CountTwo(again, i, j);
        TwiceIsTwoPlaces(db, r);
      } else {
        var k :| 0 <= k < |db| && db[k] == r;
        var l :| 0 <= l < |db| && db[l] == q;
        assert k < l || l < k;
      }
    }
  }

  lemma CountTwo(s: seq<LbRule>, i: nat, j: nat)
    requires i < j < |s| && s[i] == s[j]
    ensures multiset(s)[s[i]] >= 2
  {
    assert s == s[..i] + [s[i]] + s[i + 1..j] + [s[j]] + s[j + 1..];
  }

  lemma CurrentAgain(tbl: Table, services: map<string, string>, db: seq<LbRule>, made: seq<string>, r: LbRule)
    requires AllSupported(db) && OneEach(tbl, db, made) && MappedToLast(services, db, made)
    requires DistinctServices(db) && r in db
    ensures Current(tbl, services, r)
  {
    var k :| 0 <= k < |db| && db[k] == r;
    assert Serves(tbl, made[k], db[k]) && MappedAt(services, db, made, k);
  }

  lemma NoneOrphaned(tbl: Table, services: map<string, string>, db: seq<LbRule>, made: seq<string>, again: seq<LbRule>)
    requires Reconciled(tbl, services, db, made) && DistinctServices(db) && AllSupported(again)
    requires forall i :: 0 <= i < |db| ==> db[i] in again
    ensures NoOrphans(tbl, services, again)
  {
    forall c | c in tbl && Svc(c)
      ensures exists i :: 0 <= i < |again| && ServiceOf(again[i]) in services && services[ServiceOf(again[i])] == c
    {
      var k :| 0 <= k < |made| && made[k] == c;
      assert MappedAt(services, db, made, k);
      var i :| 0 <= i < |again| && again[i] == db[k];
    }
  }

  /** Of rules handled, in whatever order they come again, nothing is to be made exactly when no two have
      the same service string. */
  lemma HandledAgain(tbl: Table, services: map<string, string>, db: seq<LbRule>, made: seq<string>,
                     again: seq<LbRule>)
    requires AllSupported(db) && OneEach(tbl, db, made) && MappedToLast(services, db, made)
    requires multiset(again) == multiset(db)
    ensures AllSupported(again)
    ensures UpToDate(tbl, services, again) <==> DistinctServices(db)
  {
    forall i | 0 <= i < |again| ensures again[i] in db {
      assert again[i] in multiset(again);
    }
    if DistinctServices(db) {
      DistinctInAnyOrder(db, again);
      forall i | 0 <= i < |again| ensures Current(tbl, services, again[i]) {
        CurrentAgain(tbl, services, db, made, again[i]);
      }
    }
    if UpToDate(tbl, services, again) {
      DistinctInAnyOrder(again, db);
    }
  }

  /** The refresh after a successful one finds nothing to do, in whatever order the same rules come,
      exactly when no two stored rules have the same service string. */
  lemma QuietIffDistinct(tbl: Table, services: map<string, string>, db: seq<LbRule>, made: seq<string>,
                         again: seq<LbRule>)
    requires Reconciled(tbl, services, db, made) && multiset(again) == multiset(db)
    ensures AllSupported(again)
    ensures UpToDate(tbl, services, again) <==> DistinctServices(db)
    ensures DistinctServices(db) ==> NoOrphans(tbl, services, again)
  {
    HandledAgain(tbl, services, db, made, again);
    if DistinctServices(db) {
      forall i | 0 <= i < |db| ensures db[i] in again {
        assert db[i] in multiset(again);
      }
      NoneOrphaned(tbl, services, db, made, again);
    }
  }

  /** Rules whose names differ in case alone have one service string on one port, so a store that holds
      both is never quiet. */
  lemma CaseFoldedNamesCollide(ip: string, protocol: string, port: string, lbIp: string, lbPort: string)
    ensures var a := LbRule("ME-SVC", "web", ip, protocol, port, lbIp, lbPort);
      var b := a.(svcName := "WEB");
      a != b && Supported(a) && Supported(b) && ServiceOf(a) == ServiceOf(b) && !DistinctServices([a, b])
  {
    var a := LbRule("ME-SVC", "web", ip, protocol, port, lbIp, lbPort);
    var b := a.(svcName := "WEB");
    assert Upper("web") == "WEB" == Upper("WEB");
    assert [a, b][0] == a && [a, b][1] == b;
    assert "web"[0] != "WEB"[0];
  }

  /** What is current is read off the service chains, which putting the top level in place leaves alone. */
  lemma UpToDateAsPrepared(tbl: Table, services: map<string, string>, db: seq<LbRule>)
    requires Inv(tbl) && MapsToSvc(services) && AllSupported(db)
    ensures UpToDate(Prepared(tbl), services, db) <==> UpToDate(tbl, services, db)
  {
    PreparedAddsTops(tbl);
    forall i | 0 <= i < |db| ensures Current(Prepared(tbl), services, db[i]) <==> Current(tbl, services, db[i]) {
      if ServiceOf(db[i]) in services {
        var c := services[ServiceOf(db[i])];
        SvcName(KindOf(c), c);
      }
    }
  }

  // ----- A refresh from start to end

  /** The chains marked at the start: ours, without the top chains. */
  function Marked(tbl: Table): set<string> {
    (set c | c in tbl && Contains(c, MEEP_PREFIX)) - {Top(Me), Top(Ingress), Top(Egress)}
  }

  lemma Begins(tbl: Table, services: map<string, string>)
    requires Inv(tbl) && MapsToSvc(services)
    ensures Inv(Prepared(tbl)) && TopLevel(Prepared(tbl))
    ensures Progress(Prepared(tbl), services, State(Prepared(tbl), services, Marked(tbl), false), [], [])
  {
    PreparedKeeps(tbl);
    PreparedAddsTops(tbl);
    MarkedAreService(tbl);
    ProgressBegins(Prepared(tbl), services, Marked(tbl));
  }

  lemma ProgressBegins(tbl: Table, services: map<string, string>, rest: set<string>)
    requires Inv(tbl) && HasTops(tbl) && MapsToSvc(services) && forall c :: c in rest <==> c in tbl && Svc(c)
    ensures Progress(tbl, services, State(tbl, services, rest, false), [], [])
  {
  }

  lemma MarkedAreService(tbl: Table)
    requires Inv(tbl)
    ensures forall c :: c in Marked(tbl) <==> c in Prepared(tbl) && Svc(c)
  {
    forall c ensures c in Marked(tbl) <==> c in Prepared(tbl) && Svc(c) {
      MarkedIfService(tbl, c);
      if Svc(c) { SvcThere(tbl, c); }
      if c in Marked(tbl) { SvcThere(tbl, c); }
    }
  }

  lemma MarkedIfService(tbl: Table, c: string)
    requires Inv(tbl)
    ensures c in Marked(tbl) <==> c in tbl && Svc(c)
  {
    MarkedMeans(tbl, c);
    if Svc(c) { SvcName(KindOf(c), c); }
  }

  lemma MarkedMeans(tbl: Table, c: string)
    ensures c in Marked(tbl) <==> c in tbl && Contains(c, MEEP_PREFIX) && !IsTop(c)
  {
  }

  lemma SvcThere(tbl: Table, c: string)
    requires Inv(tbl) && Svc(c)
    ensures c in Prepared(tbl) <==> c in tbl
  {
    SvcName(KindOf(c), c);
    PreparedAddsTops(tbl);
  }

  /** Every rule is current, the top level is in place and every service chain is that of a rule. */
  ghost predicate NothingToDo(tbl: Table, services: map<string, string>, db: seq<LbRule>)
    requires AllSupported(db)
  {
    UpToDate(tbl, services, db) && TopLevel(tbl) && NoOrphans(tbl, services, db)
  }

  /** Chains of others, but for the built-in ones, are left alone. */
  ghost predicate ForeignKept(tbl: Table, after: Table) {
    forall c {:trigger c in after} :: c in tbl && !Contains(c, MEEP_PREFIX) && !IsBuiltin(c) ==> c in after && after[c] == tbl[c]
  }

  /** The end of a successful refresh: the table is reconciled, something was made exactly when
      something was to be made, chains of others are left alone, and nothing at all has changed where
      nothing was to be made, the top level was in place and every service chain was that of a rule. */
  lemma Ends(tbl: Table, services: map<string, string>, s: State, db: seq<LbRule>, made: seq<string>, after: Table)
    requires Inv(tbl) && MapsToSvc(services) && TopLevel(Prepared(tbl))
    requires Progress(Prepared(tbl), services, s, db, made) && Sweeping(s.tbl, s.rest, after, {})
    ensures Reconciled(after, s.services, db, made)
    ensures s.changed <==> !UpToDate(tbl, services, db)
    ensures NothingToDo(tbl, services, db) ==> after == tbl && s.services == services
    ensures ForeignKept(tbl, after)
  {
    PreparedAddsTops(tbl);
    SweptIsReconciled(Prepared(tbl), services, s, db, made, after);
    UpToDateAsPrepared(tbl, services, db);
    if NothingToDo(tbl, services, db) {
      NothingUnclaimed(Prepared(tbl), services, s, db, made);
    }
    forall c | c in tbl && !Contains(c, MEEP_PREFIX) && !IsBuiltin(c) ensures c in after && after[c] == tbl[c] {
      ForeignName(c);
    }
  }

  lemma ForeignName(c: string)
    requires !Contains(c, MEEP_PREFIX)
    ensures !IsTop(c) && !Svc(c)
  {
    if Svc(c) { SvcName(KindOf(c), c); }
    if IsTop(c) {
      assert IsAt(c, MEEP_PREFIX, 0);
    }
  }
}
