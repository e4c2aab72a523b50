/** What the reconciled chains do with traffic: where a packet that enters a hook of the table is sent. */
module LbForwarding {
  import opened Common
  import opened LbChains
  import opened LbReconciler

  /** What rules look at of a packet. */
  datatype Packet = Packet(protocol: string, ip: string, port: string)

  datatype Target = Target(ip: string, port: string)

  /** Where one rule sends a packet, if it takes it; jumps are followed to a depth. */
  function Taken(tbl: Table, r: Rule, p: Packet, depth: nat): Option<Target>
    decreases depth, 0
  {
    match r
    case Masquerade => None
    case Dnat(protocol, ip, port, toIp, toPort, _) =>
      if p == Packet(protocol, ip, port) then Some(Target(toIp, toPort)) else None
    case Jump(c) => if depth > 0 && c in tbl then Walk(tbl, tbl[c], p, depth - 1) else None
  }

  /** Where the first rule that takes a packet sends it. */
  function Walk(tbl: Table, rules: seq<Rule>, p: Packet, depth: nat): Option<Target>
    decreases depth, |rules| + 1
  {
    if rules == [] then None
    else
      var first := Taken(tbl, rules[0], p, depth);
      if first.Some? then first else Walk(tbl, rules[1..], p, depth)
  }

  /** A packet is sent where one of the rules sends it, and nowhere if none takes it. */
  lemma {:induction false} WalkTakes(tbl: Table, rules: seq<Rule>, p: Packet, depth: nat)
    ensures var w := Walk(tbl, rules, p, depth);
      && (w.None? <==> forall i :: 0 <= i < |rules| ==> Taken(tbl, rules[i], p, depth).None?)
      && (w.Some? ==> exists i :: 0 <= i < |rules| && Taken(tbl, rules[i], p, depth) == w)
  {
    if rules != [] {
      WalkTakes(tbl, rules[1..], p, depth);
      assert forall i :: 1 <= i < |rules| ==> rules[i] == rules[1..][i - 1];
    }
  }

  /** The hook through which traffic for a service type enters: services of the pod itself are met on the way
      out, ingress and egress services on the way in. */
  function HookOf(svcType: string): string {
    if svcType == "ME-SVC" then OUTPUT else PREROUTING
  }

  /** The packet is to the service's address, port and protocol, and enters where its type is met. */
  predicate ForService(r: LbRule, hook: string, p: Packet) {
    HookOf(r.svcType) == hook && p.protocol == r.protocol && p.ip == r.svcIp && p.port == r.port
  }

  function InstanceOf(r: LbRule): Target {
    Target(r.lbIp, r.lbPort)
  }

  /** The kinds of services met in a hook. */
  predicate MetIn(k: Kind, hook: string) {
    if k == Me then hook == OUTPUT else hook == PREROUTING
  }

  lemma HookOfKind(r: LbRule)
    requires Supported(r)
    ensures MetIn(RuleKind(r), HookOf(r.svcType))
    ensures forall hook :: hook == OUTPUT || hook == PREROUTING ==> (MetIn(RuleKind(r), hook) <==> HookOf(r.svcType) == hook)
  {
  }

  /** The rule is a jump to a top chain met in the hook. */
  predicate MetTop(r: Rule, hook: string) {
    exists k :: MetIn(k, hook) && r == Jump(Top(k))
  }

  /** Rules that are not ours let the packet pass: those of a hook other than jumps to the top chains met there,
      and those of these chains other than jumps to service chains. */
  ghost predicate Spared(tbl: Table, hook: string, p: Packet, depth: nat)
    requires depth >= 2 && hook in tbl && HasTops(tbl)
  {
    && (forall i :: 0 <= i < |tbl[hook]| && !MetTop(tbl[hook][i], hook) ==> Taken(tbl, tbl[hook][i], p, depth).None?)
    && (forall k :: MetIn(k, hook) ==> OthersPass(tbl, k, p, depth - 1))
  }

  ghost predicate OthersPass(tbl: Table, k: Kind, p: Packet, depth: nat)
    requires HasTops(tbl)
  {
    Top(k) in tbl
    && forall i :: 0 <= i < |tbl[Top(k)]| && !(tbl[Top(k)][i].Jump? && Svc(tbl[Top(k)][i].target))
        ==> Taken(tbl, tbl[Top(k)][i], p, depth).None?
  }

  /** A service chain sends on exactly the packets for the service of its rule. */
  lemma ChainTakes(tbl: Table, c: string, r: LbRule, p: Packet, depth: nat)
    requires Serves(tbl, c, r) && depth >= 1
    ensures Taken(tbl, Jump(c), p, depth)
         == if p == Packet(r.protocol, r.svcIp, r.port) then Some(InstanceOf(r)) else None
  {
    var rules := tbl[c];
    assert Walk(tbl, rules, p, depth - 1) == Taken(tbl, rules[0], p, depth - 1);
  }

  /** The rule whose chain a jump leads to. */
  lemma JumpServes(tbl: Table, services: map<string, string>, db: seq<LbRule>, made: seq<string>, k: Kind, c: string)
    returns (i: nat)
    requires Reconciled(tbl, services, db, made) && Top(k) in tbl && Jump(c) in tbl[Top(k)] && Svc(c)
    ensures i < |db| && |made| == |db| && made[i] == c && Serves(tbl, c, db[i]) && RuleKind(db[i]) == k
  {
    assert Refers(tbl, Top(k), c);
    TopsDiffer(k, KindOf(c));
    i :| 0 <= i < |made| && made[i] == c;
    assert Serves(tbl, made[i], db[i]);
    SvcName(RuleKind(db[i]), c);
  }

  lemma ServedIsHung(tbl: Table, services: map<string, string>, db: seq<LbRule>, made: seq<string>, i: nat)
    requires Reconciled(tbl, services, db, made) && i < |db|
    ensures |made| == |db| && Serves(tbl, made[i], db[i]) && Svc(made[i])
    ensures Top(RuleKind(db[i])) in tbl && Jump(made[i]) in tbl[Top(RuleKind(db[i]))]
  {
    assert Serves(tbl, made[i], db[i]);
    SvcName(RuleKind(db[i]), made[i]);
    assert Hung(tbl, made[i]);
  }

  /** A stored rule of the kind is for the packet. */
  ghost predicate SomeFor(db: seq<LbRule>, k: Kind, p: Packet, w: Target) {
    exists i :: 0 <= i < |db| && Supported(db[i]) && RuleKind(db[i]) == k
                && p == Packet(db[i].protocol, db[i].svcIp, db[i].port) && w == InstanceOf(db[i])
  }

  ghost predicate NoneFor(db: seq<LbRule>, k: Kind, p: Packet) {
    forall i :: 0 <= i < |db| && Supported(db[i]) && RuleKind(db[i]) == k ==> p != Packet(db[i].protocol, db[i].svcIp, db[i].port)
  }

  /** A top chain sends packets for services of its kind, and no others, to an instance of such a service. */
  lemma TopTakes(tbl: Table, services: map<string, string>, db: seq<LbRule>, made: seq<string>, k: Kind, p: Packet, depth: nat)
    requires Reconciled(tbl, services, db, made) && depth >= 1 && HasTops(tbl) && OthersPass(tbl, k, p, depth)
    ensures var w := Walk(tbl, tbl[Top(k)], p, depth);
      && (w.None? <==> NoneFor(db, k, p)) && (w.Some? ==> SomeFor(db, k, p, w.value))
  {
    var rules := tbl[Top(k)];
    var w := Walk(tbl, rules, p, depth);
    WalkTakes(tbl, rules, p, depth);
    if w.Some? {
      var j :| 0 <= j < |rules| && Taken(tbl, rules[j], p, depth) == w;
      var i := JumpServes(tbl, services, db, made, k, rules[j].target);
      ChainTakes(tbl, made[i], db[i], p, depth);
    } else {
      forall i | 0 <= i < |db| && Supported(db[i]) && RuleKind(db[i]) == k
        ensures p != Packet(db[i].protocol, db[i].svcIp, db[i].port)
      {
        ServedIsHung(tbl, services, db, made, i);
        ChainTakes(tbl, made[i], db[i], p, depth);
      }
    }
  }

  lemma TopTaken(tbl: Table, k: Kind, p: Packet, depth: nat)
    requires depth >= 1 && Top(k) in tbl
    ensures Taken(tbl, Jump(Top(k)), p, depth) == Walk(tbl, tbl[Top(k)], p, depth - 1)
  {
  }

  /** A packet is sent somewhere exactly if a top chain met in its hook sends it there. */
  lemma HookTakes(tbl: Table, hook: string, p: Packet, depth: nat)
    requires TopLevel(tbl) && (hook == OUTPUT || hook == PREROUTING) && depth >= 2 && Spared(tbl, hook, p, depth)
    ensures var w := Walk(tbl, tbl[hook], p, depth);
      && (w.None? <==> forall k :: MetIn(k, hook) ==> Walk(tbl, tbl[Top(k)], p, depth - 1).None?)
      && (w.Some? ==> exists k :: MetIn(k, hook) && Walk(tbl, tbl[Top(k)], p, depth - 1) == w)
  {
    var rules := tbl[hook];
    var w := Walk(tbl, rules, p, depth);
    WalkTakes(tbl, rules, p, depth);
    forall k | MetIn(k, hook)
      ensures Top(k) in tbl && Jump(Top(k)) in rules
      ensures Taken(tbl, Jump(Top(k)), p, depth) == Walk(tbl, tbl[Top(k)], p, depth - 1)
    {
      TopTaken(tbl, k, p, depth);
    }
    if w.Some? {
      var i :| 0 <= i < |rules| && Taken(tbl, rules[i], p, depth) == w;
      var k :| MetIn(k, hook) && rules[i] == Jump(Top(k));
    }
  }

  /** After a refresh, a packet that other rules let pass is sent on exactly if a stored rule is for it, and
      then to the instance that such a rule names: in the hook of its service's type, from the service's
      address and port. Every other packet is left alone. */
  lemma Forwards(tbl: Table, services: map<string, string>, db: seq<LbRule>, made: seq<string>, hook: string, p: Packet,
                 depth: nat)
    requires Reconciled(tbl, services, db, made) && (hook == OUTPUT || hook == PREROUTING)
    requires depth >= 2 && Spared(tbl, hook, p, depth)
    ensures var w := Walk(tbl, tbl[hook], p, depth);
      && (w.None? <==> forall i :: 0 <= i < |db| ==> !ForService(db[i], hook, p))
      && (w.Some? ==> exists i :: 0 <= i < |db| && ForService(db[i], hook, p) && w.value == InstanceOf(db[i]))
  {
    HookTakes(tbl, hook, p, depth);
    forall k | MetIn(k, hook)
      ensures var w := Walk(tbl, tbl[Top(k)], p, depth - 1);
        (w.None? <==> NoneFor(db, k, p)) && (w.Some? ==> SomeFor(db, k, p, w.value))
    {
      TopTakes(tbl, services, db, made, k, p, depth - 1);
    }
    forall i | 0 <= i < |db|
      ensures ForService(db[i], hook, p)
        <==> MetIn(RuleKind(db[i]), hook) && p == Packet(db[i].protocol, db[i].svcIp, db[i].port)
    {
      HookOfKind(db[i]);
    }
  }

  /** Every packet for a service reaches that service's instance, exactly if stored rules for the same address,
      port and protocol in the same hook all name one instance. */
  lemma ForwardsExactly(tbl: Table, services: map<string, string>, db: seq<LbRule>, made: seq<string>, hook: string,
                        p: Packet, depth: nat)
    requires Reconciled(tbl, services, db, made) && (hook == OUTPUT || hook == PREROUTING)
    requires depth >= 2 && Spared(tbl, hook, p, depth)
    ensures (forall i :: 0 <= i < |db| && ForService(db[i], hook, p)
                         ==> Walk(tbl, tbl[hook], p, depth) == Some(InstanceOf(db[i])))
       <==> (forall i, j :: 0 <= i < |db| && 0 <= j < |db| && ForService(db[i], hook, p) && ForService(db[j], hook, p)
                            ==> InstanceOf(db[i]) == InstanceOf(db[j]))
  {
    Forwards(tbl, services, db, made, hook, p, depth);
  }

  /** The table with one rule of the pod's own services: it is sent from 10.0.0.1:80 to 10.0.0.2:8080, and what
      comes to 10.0.0.2:80 stays. */
  lemma OneServiceForwarded(c: string)
    requires IsSvc(Me, c)
    ensures var r := LbRule("ME-SVC", "svc", "10.0.0.1", "TCP", "80", "10.0.0.2", "8080");
      var tbl: Table := map[POSTROUTING := [Masquerade], OUTPUT := [Jump(Top(Me))],
                     PREROUTING := [Jump(Top(Ingress)), Jump(Top(Egress))],
                     Top(Me) := [Jump(c)], Top(Ingress) := [], Top(Egress) := []][c := [DnatOf(r)]];
      && Walk(tbl, tbl[OUTPUT], Packet("TCP", "10.0.0.1", "80"), 2) == Some(Target("10.0.0.2", "8080"))
      && Walk(tbl, tbl[OUTPUT], Packet("TCP", "10.0.0.2", "80"), 2) == None
  {
    var r := LbRule("ME-SVC", "svc", "10.0.0.1", "TCP", "80", "10.0.0.2", "8080");
    SvcName(Me, c);
    TopsDiffer(Me, Ingress);
    TopsDiffer(Me, Egress);
    BuiltinsNotTop(OUTPUT, Me);
    BuiltinsNotTop(PREROUTING, Me);
    assert "10.0.0.1" != "10.0.0.2" by { assert "10.0.0.1"[7] != "10.0.0.2"[7]; }
    var tbl: Table := map[POSTROUTING := [Masquerade], OUTPUT := [Jump(Top(Me))],
                   PREROUTING := [Jump(Top(Ingress)), Jump(Top(Egress))],
                   Top(Me) := [Jump(c)], Top(Ingress) := [], Top(Egress) := []][c := [DnatOf(r)]];
    TableOf(tbl, c, r);
    forall p: Packet ensures Walk(tbl, tbl[OUTPUT], p, 2) == Taken(tbl, DnatOf(r), p, 0) {
      OneWay(tbl, Top(Me), c, r, p);
    }
  }

  lemma TableOf(tbl: Table, c: string, r: LbRule)
    requires IsSvc(Me, c) && Supported(r)
    requires tbl == map[POSTROUTING := [Masquerade], OUTPUT := [Jump(Top(Me))],
                        PREROUTING := [Jump(Top(Ingress)), Jump(Top(Egress))],
                        Top(Me) := [Jump(c)], Top(Ingress) := [], Top(Egress) := []][c := [DnatOf(r)]]
    ensures OUTPUT in tbl && tbl[OUTPUT] == [Jump(Top(Me))] && Top(Me) in tbl && tbl[Top(Me)] == [Jump(c)]
    ensures c in tbl && tbl[c] == [DnatOf(r)]
  {
    SvcName(Me, c);
    TopsDiffer(Me, Ingress);
    TopsDiffer(Me, Egress);
    BuiltinsNotTop(OUTPUT, Me);
    BuiltinsNotTop(OUTPUT, Ingress);
    BuiltinsNotTop(OUTPUT, Egress);
    BuiltinsNotTop(PREROUTING, Me);
    assert OUTPUT[0] != PREROUTING[0];
    assert OUTPUT[0] != POSTROUTING[0];
  }

  lemma OneWay(tbl: Table, top: string, c: string, r: LbRule, p: Packet)
    requires Supported(r) && OUTPUT in tbl && tbl[OUTPUT] == [Jump(top)] && top in tbl && tbl[top] == [Jump(c)]
    requires c in tbl && tbl[c] == [DnatOf(r)]
    ensures Walk(tbl, tbl[OUTPUT], p, 2) == Taken(tbl, DnatOf(r), p, 0)
  {
    assert Walk(tbl, [DnatOf(r)], p, 0) == Taken(tbl, DnatOf(r), p, 0);
    assert Walk(tbl, [Jump(c)], p, 1) == Taken(tbl, Jump(c), p, 1);
    assert Walk(tbl, [Jump(top)], p, 2) == Taken(tbl, Jump(top), p, 2);
  }
}
