/** The chains of the NAT table that the load-balancing rules of a pod live in: names, rules, invariant. */
module LbChains {
  import opened Text

  // ----- Chain names

  datatype Kind = Me | Ingress | Egress

  const MEEP_PREFIX := "MEEP-"
  const MAX_CHAIN_LEN := 25

  function Prefix(k: Kind): string {
    match k
    case Me => "MEEP-ME-"
    case Ingress => "MEEP-INGRESS-"
    case Egress => "MEEP-EGRESS-"
  }

  function Top(k: Kind): string {
    Prefix(k) + "SERVICES"
  }

  function SvcPrefix(k: Kind): string {
    Prefix(k) + "SVC-"
  }

  predicate IsTop(c: string) {
    c == Top(Me) || c == Top(Ingress) || c == Top(Egress)
  }

  /** The kind of a chain as told from its name. */
  function KindOf(c: string): Kind {
    if Contains(c, Prefix(Ingress)) then Ingress
    else if Contains(c, Prefix(Egress)) then Egress
    else Me
  }

  const POSTROUTING := "POSTROUTING"
  const OUTPUT := "OUTPUT"
  const PREROUTING := "PREROUTING"

  predicate IsBuiltin(c: string) {
    c == POSTROUTING || c == OUTPUT || c == PREROUTING
  }

  predicate AllCapitals(s: string) {
    forall i :: 0 <= i < |s| ==> 'A' <= s[i] <= 'Z'
  }

  /** A service chain's name: its prefix and as many capital letters as fill the length. */
  predicate IsSvc(k: Kind, c: string) {
    |c| == MAX_CHAIN_LEN && SvcPrefix(k) <= c && AllCapitals(c[|SvcPrefix(k)|..])
  }

  predicate Svc(c: string) {
    IsSvc(KindOf(c), c)
  }

  lemma CharsOf(k: Kind, c: string, i: nat)
    requires IsSvc(k, c) && i < MAX_CHAIN_LEN
    ensures i < |SvcPrefix(k)| ==> c[i] == SvcPrefix(k)[i]
    ensures i >= |SvcPrefix(k)| ==> c[i] != '-'
  {
    if i >= |SvcPrefix(k)| {
      assert c[i] == c[|SvcPrefix(k)|..][i - |SvcPrefix(k)|];
    }
  }

  lemma PrefixContained(s: string, sub: string)
    requires sub <= s
    ensures Contains(s, sub)
  {
    assert IsAt(s, sub, 0);
  }

  /** A name of one kind contains no other kind's prefix: its dashes stand elsewhere. */
  lemma OtherPrefixAbsent(k: Kind, c: string, other: Kind)
    requires IsSvc(k, c) && other != k && other != Me
    ensures !Contains(c, Prefix(other))
  {
    var sub := Prefix(other);
    forall i | 0 <= i <= |c| ensures !IsAt(c, sub, i) {
      if i + |sub| <= |c| {
        DashPlaces(k, c, i + 4);
        DashPlaces(k, c, i + |sub| - 1);
        CharsOf(k, c, 5);
        if IsAt(c, sub, i) { CharsAt(c, sub, i); }
      }
    }
  }

  /** Where a kind's prefix stands in a name its dashes and its first letter stand. */
  lemma CharsAt(c: string, sub: string, i: nat)
    requires IsAt(c, sub, i) && (sub == Prefix(Ingress) || sub == Prefix(Egress))
    ensures c[i + 4] == '-' && c[i + |sub| - 1] == '-'
    ensures c[i + 5] == if sub == Prefix(Ingress) then 'I' else 'E'
  {
    var at := c[i..i + |sub|];
    assert at[4] == c[i + 4] && at[5] == c[i + 5] && at[|sub| - 1] == c[i + |sub| - 1];
    assert Prefix(Ingress)[5] == 'I' && Prefix(Egress)[5] == 'E';
  }

  lemma DashPlaces(k: Kind, c: string, i: nat)
    requires IsSvc(k, c) && i < MAX_CHAIN_LEN
    ensures c[i] == '-' ==> match k
      case Me => i == 4 || i == 7 || i == 11
      case Ingress => i == 4 || i == 12 || i == 16
      case Egress => i == 4 || i == 11 || i == 15
  {
    CharsOf(k, c, i);
  }

  /** The name of a service chain tells its kind, and it is none of the other chains. */
  lemma SvcName(k: Kind, c: string)
    requires IsSvc(k, c)
    ensures KindOf(c) == k && Svc(c) && Contains(c, MEEP_PREFIX) && !IsTop(c) && !IsBuiltin(c)
  {
    assert Prefix(k) <= SvcPrefix(k) <= c;
    assert MEEP_PREFIX <= c;
    PrefixContained(c, MEEP_PREFIX);
    PrefixContained(c, Prefix(k));
    if k != Ingress { OtherPrefixAbsent(k, c, Ingress); }
    if k != Egress { OtherPrefixAbsent(k, c, Egress); }
  }

  // ----- The table

  datatype Rule =
    | Masquerade
    | Jump(target: string)
    | Dnat(protocol: string, ip: string, port: string, toIp: string, toPort: string, service: string)

  type Table = map<string, seq<Rule>>

  /** The top chain a service chain is referred to from. */
  function Parent(c: string): string {
    Top(KindOf(c))
  }

  predicate Refers(tbl: Table, d: string, c: string) {
    d in tbl && Jump(c) in tbl[d]
  }

  /** A service chain hangs from its parent by one jump and holds one rule, of a service of its kind. */
  ghost predicate Hung(tbl: Table, c: string) {
    && c in tbl && Parent(c) in tbl && multiset(tbl[Parent(c)])[Jump(c)] == 1
    && |tbl[c]| == 1 && tbl[c][0].Dnat? && SvcPrefix(KindOf(c)) <= tbl[c][0].service
  }

  /** What holds of the table between commands: every chain of ours is a top chain or a service chain
      that hangs from the top chain of its kind, and no jump leads to a service chain from elsewhere. */
  ghost predicate Inv(tbl: Table) {
    && POSTROUTING in tbl && OUTPUT in tbl && PREROUTING in tbl
    && (forall c :: c in tbl && Contains(c, MEEP_PREFIX) && !IsTop(c) ==> Svc(c))
    && (forall c :: c in tbl && Svc(c) ==> Hung(tbl, c))
    && (forall d, c :: Refers(tbl, d, c) && Svc(c) ==> c in tbl && d == Parent(c))
  }

  predicate HasTops(tbl: Table) {
    Top(Me) in tbl && Top(Ingress) in tbl && Top(Egress) in tbl
  }

  // ----- The commands, as functions of the table

  function WithChain(tbl: Table, c: string): Table {
    if c in tbl then tbl else tbl[c := []]
  }

  function Appended(tbl: Table, c: string, r: Rule): Table
    requires c in tbl
  {
    if r in tbl[c] then tbl else tbl[c := tbl[c] + [r]]
  }

  /** The list without its first occurrence of a rule. */
  function RemoveFirst(s: seq<Rule>, r: Rule): (t: seq<Rule>)
    ensures r !in s ==> t == s
  {
    if s == [] then [] else if s[0] == r then s[1..] else [s[0]] + RemoveFirst(s[1..], r)
  }

  lemma {:induction false} RemoveFirstBag(s: seq<Rule>, r: Rule)
    ensures multiset(RemoveFirst(s, r)) == multiset(s) - multiset{r}
  {
    if s != [] {
      assert s == [s[0]] + s[1..];
      if s[0] != r {
        RemoveFirstBag(s[1..], r);
        assert multiset([s[0]] + RemoveFirst(s[1..], r)) == multiset{s[0]} + multiset(RemoveFirst(s[1..], r));
      }
    }
  }

  /** A new chain with one rule, hung from the top chain of its kind. */
  function Installed(tbl: Table, k: Kind, c: string, r: Rule): Table
    requires Top(k) in tbl
  {
    tbl[c := []][Top(k) := tbl[Top(k)] + [Jump(c)]][c := [r]]
  }

  /** A chain taken from its parent, emptied and deleted. */
  function Uninstalled(tbl: Table, c: string): Table
    requires Parent(c) in tbl
  {
    tbl[Parent(c) := RemoveFirst(tbl[Parent(c)], Jump(c))] - {c}
  }

  /** The top-level chains and rules, each put in place where it is missing. */
  function Prepared(tbl: Table): Table
    requires POSTROUTING in tbl && OUTPUT in tbl && PREROUTING in tbl
  {
    PreparedWith(tbl, POSTROUTING, OUTPUT, PREROUTING, Top(Me), Top(Ingress), Top(Egress))
  }

  function PreparedWith(tbl: Table, post: string, outs: string, pre: string, me: string, ing: string, eg: string): Table
    requires post in tbl && outs in tbl && pre in tbl
  {
    var t := WithChain(WithChain(WithChain(Appended(tbl, post, Masquerade), me), ing), eg);
    Appended(Appended(Appended(t, outs, Jump(me)), pre, Jump(ing)), pre, Jump(eg))
  }

  /** The top-level chains and rules are in place. */
  predicate TopLevel(tbl: Table) {
    && HasTops(tbl) && POSTROUTING in tbl && OUTPUT in tbl && PREROUTING in tbl
    && Masquerade in tbl[POSTROUTING] && Jump(Top(Me)) in tbl[OUTPUT]
    && Jump(Top(Ingress)) in tbl[PREROUTING] && Jump(Top(Egress)) in tbl[PREROUTING]
  }

  /** In place are: masquerading of what leaves, and jumps to the three top chains from where their traffic is met. */
  lemma TopLevelMeans(tbl: Table)
    ensures TopLevel(tbl) <==>
      && {"POSTROUTING", "OUTPUT", "PREROUTING", "MEEP-ME-SERVICES", "MEEP-INGRESS-SERVICES", "MEEP-EGRESS-SERVICES"} <= tbl.Keys
      && Masquerade in tbl["POSTROUTING"] && Jump("MEEP-ME-SERVICES") in tbl["OUTPUT"]
      && Jump("MEEP-INGRESS-SERVICES") in tbl["PREROUTING"] && Jump("MEEP-EGRESS-SERVICES") in tbl["PREROUTING"]
  {
    assert Top(Me) == "MEEP-ME-SERVICES" && Top(Ingress) == "MEEP-INGRESS-SERVICES" && Top(Egress) == "MEEP-EGRESS-SERVICES";
  }

  // ----- What they keep

  /** A table without chains of ours is one to start from. */
  lemma FreshTable()
    ensures Inv(map[POSTROUTING := [], OUTPUT := [], PREROUTING := []])
  {
    var tbl: Table := map[POSTROUTING := [], OUTPUT := [], PREROUTING := []];
    forall c | c in tbl ensures !Svc(c) && !Contains(c, MEEP_PREFIX) {
      BuiltinName(c);
    }
  }

  lemma BuiltinName(c: string)
    requires IsBuiltin(c)
    ensures !Svc(c) && !Contains(c, MEEP_PREFIX)
  {
    if Svc(c) { SvcName(KindOf(c), c); }
    forall i | 0 <= i <= |c| ensures !IsAt(c, MEEP_PREFIX, i) {
      if i + 5 <= |c| {
        assert c[i..i + 5][4] == c[i + 4] && MEEP_PREFIX[4] == '-';
      }
    }
  }

  lemma WithTopKeeps(tbl: Table, k: Kind)
    requires Inv(tbl)
    ensures Inv(WithChain(tbl, Top(k)))
  {
    var t := WithChain(tbl, Top(k));
    forall c | c in t && Svc(c) ensures Hung(t, c) {
      SvcName(KindOf(c), c);
      assert Hung(tbl, c);
    }
    forall d, c | Refers(t, d, c) && Svc(c) ensures c in t && d == Parent(c) {
      assert Refers(tbl, d, c);
    }
  }

  lemma AppendedTopKeeps(tbl: Table, d: string, r: Rule)
    requires Inv(tbl) && IsBuiltin(d) && (r.Jump? ==> !Svc(r.target))
    ensures Inv(Appended(tbl, d, r))
  {
    var t := Appended(tbl, d, r);
    forall c | c in t && Svc(c) ensures Hung(t, c) {
      SvcName(KindOf(c), c);
      BuiltinsNotTop(d, KindOf(c));
      HungApart(tbl, d, r, c);
    }
    forall e, c | Refers(t, e, c) && Svc(c) ensures c in t && e == Parent(c) {
      RefersBefore(tbl, d, r, e, c);
    }
  }

  lemma RefersBefore(tbl: Table, d: string, r: Rule, e: string, c: string)
    requires d in tbl && (r.Jump? ==> r.target != c) && Refers(Appended(tbl, d, r), e, c)
    ensures Refers(tbl, e, c)
  {
  }

  lemma HungApart(tbl: Table, d: string, r: Rule, c: string)
    requires Hung(tbl, c) && d in tbl && d != c && d != Parent(c)
    ensures Hung(Appended(tbl, d, r), c)
  {
  }

  lemma BuiltinsNotTop(d: string, k: Kind)
    requires IsBuiltin(d)
    ensures d != Top(k)
  {
    assert Top(k)[0] == 'M';
  }

  lemma TopThere(tbl: Table, k: Kind)
    ensures IsTop(Top(k))
    ensures HasTops(tbl) ==> Top(k) in tbl
  {
    match k case Me => case Ingress => case Egress =>
  }

  lemma TopsDiffer(k: Kind, m: Kind)
    ensures Top(k) == Top(m) <==> k == m
    ensures !Svc(Top(k))
  {
    assert Top(k)[5] == match k case Me => 'M' case Ingress => 'I' case Egress => 'E';
    assert Top(m)[5] == match m case Me => 'M' case Ingress => 'I' case Egress => 'E';
    if Svc(Top(k)) {
      SvcName(KindOf(Top(k)), Top(k));
    }
  }

  /** Putting the top level in place keeps the invariant. */
  lemma PreparedKeeps(tbl: Table)
    requires Inv(tbl)
    ensures Inv(Prepared(tbl))
  {
    var a := Appended(tbl, POSTROUTING, Masquerade);
    AppendedTopKeeps(tbl, POSTROUTING, Masquerade);
    var b := WithChain(WithChain(WithChain(a, Top(Me)), Top(Ingress)), Top(Egress));
    WithTopKeeps(a, Me);
    WithTopKeeps(WithChain(a, Top(Me)), Ingress);
    WithTopKeeps(WithChain(WithChain(a, Top(Me)), Top(Ingress)), Egress);
    TopsDiffer(Me, Ingress);
    TopsDiffer(Egress, Egress);
    AppendedTopKeeps(b, OUTPUT, Jump(Top(Me)));
    var c := Appended(b, OUTPUT, Jump(Top(Me)));
    AppendedTopKeeps(c, PREROUTING, Jump(Top(Ingress)));
    AppendedTopKeeps(Appended(c, PREROUTING, Jump(Top(Ingress))), PREROUTING, Jump(Top(Egress)));
  }

  /** It changes no service chain, and nothing at all where the top level is in place already. */
  lemma PreparedAddsTops(tbl: Table)
    requires POSTROUTING in tbl && OUTPUT in tbl && PREROUTING in tbl
    ensures TopLevel(Prepared(tbl))
    ensures TopLevel(tbl) ==> Prepared(tbl) == tbl
    ensures forall c :: c in tbl && !IsBuiltin(c) ==> c in Prepared(tbl) && Prepared(tbl)[c] == tbl[c]
    ensures forall c :: c in Prepared(tbl) ==> c in tbl || IsTop(c)
  {
    BuiltinsNotTop(PREROUTING, Me);
    BuiltinsNotTop(PREROUTING, Ingress);
    BuiltinsNotTop(PREROUTING, Egress);
    AddsTops(tbl, POSTROUTING, OUTPUT, PREROUTING, Top(Me), Top(Ingress), Top(Egress));
    if TopLevel(tbl) {
      TopsThere(tbl, POSTROUTING, OUTPUT, PREROUTING, Top(Me), Top(Ingress), Top(Egress));
    }
  }

  lemma AddsTops(tbl: Table, post: string, outs: string, pre: string, me: string, ing: string, eg: string)
    requires post in tbl && outs in tbl && pre in tbl && post != outs && post != pre && outs != pre
    ensures var t := PreparedWith(tbl, post, outs, pre, me, ing, eg);
      && me in t && ing in t && eg in t && post in t && outs in t && pre in t
      && Masquerade in t[post] && Jump(me) in t[outs] && Jump(ing) in t[pre] && Jump(eg) in t[pre]
      && (forall c :: c in tbl && c != post && c != outs && c != pre ==> c in t && t[c] == tbl[c])
      && (forall c :: c in t ==> c in tbl || c == me || c == ing || c == eg)
  {
    var a := Appended(tbl, post, Masquerade);
    AddsChains(a, me, ing, eg);
    AddsRules(WithChain(WithChain(WithChain(a, me), ing), eg), outs, pre, me, ing, eg);
  }

  lemma AddsChains(tbl: Table, me: string, ing: string, eg: string)
    ensures var t := WithChain(WithChain(WithChain(tbl, me), ing), eg);
      && me in t && ing in t && eg in t
      && (forall c :: c in tbl ==> c in t && t[c] == tbl[c])
      && (forall c :: c in t ==> c in tbl || c == me || c == ing || c == eg)
  {
  }

  lemma AddsRules(tbl: Table, outs: string, pre: string, me: string, ing: string, eg: string)
    requires outs in tbl && pre in tbl && outs != pre
    ensures var t := Appended(Appended(Appended(tbl, outs, Jump(me)), pre, Jump(ing)), pre, Jump(eg));
      && t.Keys == tbl.Keys && Jump(me) in t[outs] && Jump(ing) in t[pre] && Jump(eg) in t[pre]
      && forall c :: c in tbl && c != outs && c != pre ==> t[c] == tbl[c]
  {
  }

  lemma TopsThere(tbl: Table, post: string, outs: string, pre: string, me: string, ing: string, eg: string)
    requires post in tbl && outs in tbl && pre in tbl && me in tbl && ing in tbl && eg in tbl
    requires Masquerade in tbl[post] && Jump(me) in tbl[outs] && Jump(ing) in tbl[pre] && Jump(eg) in tbl[pre]
    ensures PreparedWith(tbl, post, outs, pre, me, ing, eg) == tbl
  {
  }

  lemma InstallKeepsChain(tbl: Table, k: Kind, c: string, r: Rule, e: string)
    requires Inv(tbl) && HasTops(tbl) && IsSvc(k, c) && c !in tbl && r.Dnat? && SvcPrefix(k) <= r.service
    requires e in Installed(tbl, k, c, r) && Svc(e)
    ensures Hung(Installed(tbl, k, c, r), e)
  {
    SvcName(k, c);
    TopsDiffer(KindOf(e), k);
    TopsDiffer(k, k);
    if e == c {
      assert !Refers(tbl, Top(k), c);
    } else {
      assert Hung(tbl, e);
      HungStays(tbl, k, c, r, e);
    }
  }

  lemma HungStays(tbl: Table, k: Kind, c: string, r: Rule, e: string)
    requires Hung(tbl, e) && Top(k) in tbl && c !in tbl && e != Top(k) && c != Top(k)
    ensures Hung(Installed(tbl, k, c, r), e)
  {
    assert e != c && Jump(e) != Jump(c);
  }

  lemma InstallKeepsJumps(tbl: Table, k: Kind, c: string, r: Rule, d: string, e: string)
    requires Inv(tbl) && HasTops(tbl) && IsSvc(k, c) && c !in tbl && r.Dnat?
    requires Refers(Installed(tbl, k, c, r), d, e) && Svc(e)
    ensures e in Installed(tbl, k, c, r) && d == Parent(e)
  {
    SvcName(k, c);
    if !(d == Top(k) && e == c) {
      assert Refers(tbl, d, e);
    }
  }

  lemma InstallKeeps(tbl: Table, k: Kind, c: string, r: Rule)
    requires Inv(tbl) && HasTops(tbl) && IsSvc(k, c) && c !in tbl && r.Dnat? && SvcPrefix(k) <= r.service
    ensures Inv(Installed(tbl, k, c, r))
  {
    SvcName(k, c);
    var t := Installed(tbl, k, c, r);
    assert forall e :: e in t <==> e in tbl || e == c;
    forall e | e in t && Svc(e) ensures Hung(t, e) {
      InstallKeepsChain(tbl, k, c, r, e);
    }
    forall d, e | Refers(t, d, e) && Svc(e) ensures e in t && d == Parent(e) {
      InstallKeepsJumps(tbl, k, c, r, d, e);
    }
  }

  /** A service chain is referred to from its parent alone, and not at all once the jump there is gone. */
  lemma UnhookedAlone(tbl: Table, c: string)
    requires Inv(tbl) && c in tbl && Svc(c)
    ensures Hung(tbl, c) && Jump(c) in tbl[Parent(c)]
    ensures forall d :: Refers(tbl, d, c) ==> d == Parent(c)
    ensures Jump(c) !in RemoveFirst(tbl[Parent(c)], Jump(c))
  {
    assert Hung(tbl, c);
    RemoveFirstBag(tbl[Parent(c)], Jump(c));
    assert multiset(RemoveFirst(tbl[Parent(c)], Jump(c)))[Jump(c)] == 0;
  }

  lemma UninstallKeepsChain(tbl: Table, c: string, e: string)
    requires Inv(tbl) && c in tbl && Svc(c) && e in tbl && e != c && Svc(e) && Parent(c) in tbl
    ensures Hung(Uninstalled(tbl, c), e)
  {
    assert Hung(tbl, e);
    TopsDiffer(KindOf(e), KindOf(c));
    TopsDiffer(KindOf(c), KindOf(e));
    StaysHung(tbl, Parent(c), c, e, Parent(e));
  }

  /** Taking another chain from its parent leaves the jump to a chain, and the chain. */
  lemma StaysHung(tbl: Table, p: string, c: string, e: string, q: string)
    requires p in tbl && q in tbl && e in tbl && e != c && q != c && e != p
    ensures var t := tbl[p := RemoveFirst(tbl[p], Jump(c))] - {c};
      e in t && t[e] == tbl[e] && q in t && multiset(t[q])[Jump(e)] == multiset(tbl[q])[Jump(e)]
  {
    RemoveFirstBag(tbl[p], Jump(c));
    assert Jump(e) != Jump(c);
  }

  lemma UninstallKeepsJumps(tbl: Table, c: string, d: string, e: string)
    requires Inv(tbl) && c in tbl && Svc(c) && Parent(c) in tbl
    requires Refers(Uninstalled(tbl, c), d, e) && Svc(e)
    ensures e in Uninstalled(tbl, c) && d == Parent(e)
  {
    UnhookedAlone(tbl, c);
    RemoveFirstBag(tbl[Parent(c)], Jump(c));
    if d == Parent(c) {
      assert Jump(e) in multiset(RemoveFirst(tbl[Parent(c)], Jump(c)));
      assert Jump(e) in multiset(tbl[Parent(c)]);
    }
    assert Refers(tbl, d, e);
  }

  lemma UninstallKeepsNames(tbl: Table, c: string)
    requires Inv(tbl) && c in tbl && Svc(c)
    ensures Parent(c) in tbl && c !in Uninstalled(tbl, c)
    ensures var t := Uninstalled(tbl, c);
      && POSTROUTING in t && OUTPUT in t && PREROUTING in t
      && forall e :: e in t && Contains(e, MEEP_PREFIX) && !IsTop(e) ==> Svc(e)
  {
    assert Hung(tbl, c);
    UninstalledKeys(tbl, c);
    SvcName(KindOf(c), c);
  }

  lemma UninstalledKeys(tbl: Table, c: string)
    requires Parent(c) in tbl
    ensures forall e :: e in Uninstalled(tbl, c) <==> e in tbl && e != c
  {
  }

  /** Taking a service chain out keeps the invariant. */
  lemma UninstallKeeps(tbl: Table, c: string)
    requires Inv(tbl) && c in tbl && Svc(c)
    ensures Parent(c) in tbl && Inv(Uninstalled(tbl, c)) && c !in Uninstalled(tbl, c)
  {
    UninstallKeepsNames(tbl, c);
    var t := Uninstalled(tbl, c);
    forall e | e in t && Svc(e) ensures Hung(t, e) {
      UninstallKeepsChain(tbl, c, e);
    }
    forall d, e | Refers(t, d, e) && Svc(e) ensures e in t && d == Parent(e) {
      UninstallKeepsJumps(tbl, c, d, e);
    }
  }
}
