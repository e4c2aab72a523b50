/** The traffic-control engine: which addresses it waits for, when it is ready, and the filters it numbers. */
module TcEngine {
  import opened Common
  import opened Text

  datatype EngineState = Idle | Initializing | Ready

  /** A service a process exposes, with the group it belongs to, if any. */
  datatype Service = Service(name: string, group: string)

  /** A process of the scenario, as far as the engine waits for addresses. */
  datatype Process = Process(name: string, services: seq<Service>)

  const DEFAULT_DISTRIBUTION := "normal"
  const THROUGHPUT_UNIT := 1000000.0

  /** A filter at a destination for one source, with the shaping applied to what it sends. */
  datatype FilterInfo = FilterInfo(srcIp: string, srcSvcIp: string, uniqueNumber: int, shape: Shape)

  datatype Shape = Shape(latency: int, latencyVariation: int, distribution: string, packetLoss: int, dataRate: int)

  const NO_SHAPE := Shape(0, 0, DEFAULT_DISTRIBUTION, 0, 0)

  /** A stored filter rule. */
  datatype FilterRule = FilterRule(srcName: string, srcIp: string, srcSvcIp: string)

  /** The keys that have a non-empty address. */
  function KnownKeys(ips: map<string, string>): set<string> {
    set k | k in ips && ips[k] != ""
  }

  function Known(ips: map<string, string>): nat {
    |KnownKeys(ips)|
  }

  lemma KnownAdded(ips: map<string, string>, k: string)
    requires k !in ips
    ensures Known(ips[k := ""]) == Known(ips) && |ips[k := ""]| == |ips| + 1
  {
    assert KnownKeys(ips[k := ""]) == KnownKeys(ips);
  }

  lemma KnownSet(ips: map<string, string>, k: string, ip: string)
    requires k in ips && ips[k] == "" && ip != ""
    ensures Known(ips[k := ip]) == Known(ips) + 1 && |ips[k := ip]| == |ips|
  {
    assert KnownKeys(ips[k := ip]) == KnownKeys(ips) + {k};
    assert ips[k := ip].Keys == ips.Keys;
  }

  /** All are known exactly when as many are known as there are. */
  lemma AllKnown(ips: map<string, string>)
    ensures Known(ips) <= |ips|
    ensures Known(ips) == |ips| <==> forall k :: k in ips ==> ips[k] != ""
  {
    var some := KnownKeys(ips);
    assert some <= ips.Keys;
    Within(some, ips.Keys);
    assert some == ips.Keys <==> forall k :: k in ips ==> ips[k] != "";
  }

  lemma Within<T>(a: set<T>, b: set<T>)
    requires a <= b
    ensures |a| <= |b| && (|a| == |b| <==> a == b)
  {
    assert b == a + (b - a) && a !! (b - a);
    assert |b| == |a| + |b - a|;
  }

  /** An address is taken once, for a name that waits for one, and no empty one. */
  function TakeIp(ips: map<string, string>, name: string, ip: string): map<string, string> {
    if name in ips && ips[name] == "" && ip != "" then ips[name := ip] else ips
  }

  function TakenAll(ips: map<string, string>, found: seq<(string, string)>, n: nat): map<string, string>
    requires n <= |found|
  {
    if n == 0 then ips else TakeIp(TakenAll(ips, found, n - 1), found[n - 1].0, found[n - 1].1)
  }

  /** The first address offered to a name. */
  ghost predicate FirstOffered(found: seq<(string, string)>, n: nat, name: string, ip: string)
    requires n <= |found|
  {
    exists j :: 0 <= j < n && found[j] == (name, ip) && ip != "" && forall i :: 0 <= i < j ==> found[i].0 != name || found[i].1 == ""
  }

  /** A name that waits takes the first address offered to it, and goes on waiting if there is none. */
  lemma {:induction false} FirstIsTaken(ips: map<string, string>, found: seq<(string, string)>, n: nat, name: string)
    requires n <= |found| && name in ips && ips[name] == ""
    ensures name in TakenAll(ips, found, n)
    ensures var ip := TakenAll(ips, found, n)[name];
      if ip == "" then forall i :: 0 <= i < n ==> found[i].0 != name || found[i].1 == ""
      else FirstOffered(found, n, name, ip)
  {
    if n > 0 {
      FirstIsTaken(ips, found, n - 1, name);
      var before, ip := TakenAll(ips, found, n - 1)[name], TakenAll(ips, found, n)[name];
      if before != "" {
        var j :| 0 <= j < n - 1 && found[j] == (name, before) && forall i :: 0 <= i < j ==> found[i].0 != name || found[i].1 == "";
        assert found[j] == (name, ip);
      } else if ip != "" {
        assert found[n - 1] == (name, ip);
      }
    }
  }

  /** Addresses known are kept, no name is added, and each name offered an address has one. */
  lemma {:induction false} TakenAllMeans(ips: map<string, string>, found: seq<(string, string)>, n: nat)
    requires n <= |found|
    ensures TakenAll(ips, found, n).Keys == ips.Keys
    ensures forall k :: k in ips && ips[k] != "" ==> TakenAll(ips, found, n)[k] == ips[k]
    ensures forall j :: 0 <= j < n && found[j].0 in ips && found[j].1 != "" ==> TakenAll(ips, found, n)[found[j].0] != ""
  {
    if n > 0 {
      TakenAllMeans(ips, found, n - 1);
    }
  }

  /** Where every address is known none is taken. */
  lemma NoneToTake(ips: map<string, string>, found: seq<(string, string)>)
    ensures Known(ips) >= |ips| ==> TakenAll(ips, found, |found|) == ips
  {
    AllKnown(ips);
    if forall k :: k in ips ==> ips[k] != "" {
      NoneTaken(ips, found, |found|);
    }
  }

  lemma {:induction false} NoneTaken(ips: map<string, string>, found: seq<(string, string)>, n: nat)
    requires n <= |found| && forall k :: k in ips ==> ips[k] != ""
    ensures TakenAll(ips, found, n) == ips
  {
    if n > 0 { NoneTaken(ips, found, n - 1); }
  }

  /** Addresses waited for are those before, unchanged, and new ones that are not known. */
  ghost predicate Extends(before: map<string, string>, ips: map<string, string>) {
    var extended := before.Keys <= ips.Keys && forall k :: k in ips ==> ips[k] == if k in before then before[k] else "";
    extended
  }

  /** Elements that were there are as they were. */
  ghost predicate Keeps(before: map<string, NetElem>, elems: map<string, NetElem>) {
    before.Keys <= elems.Keys && forall k :: k in before ==> elems[k] == before[k]
  }

  /** The addresses waited for and the elements grow, the elements by these names. */
  ghost predicate Grown(pods0: map<string, string>, svcs0: map<string, string>, elems0: map<string, NetElem>,
                        pods: map<string, string>, svcs: map<string, string>, elems: map<string, NetElem>, names: set<string>) {
    var grown := Extends(pods0, pods) && Extends(svcs0, svcs) && Keeps(elems0, elems) && elems.Keys == elems0.Keys + names;
    grown
  }

  lemma GrownSelf(pods: map<string, string>, svcs: map<string, string>, elems: map<string, NetElem>)
    ensures Grown(pods, svcs, elems, pods, svcs, elems, {})
  {
  }

  lemma GrownMore(pods0: map<string, string>, svcs0: map<string, string>, elems0: map<string, NetElem>,
                  pods1: map<string, string>, svcs1: map<string, string>, elems1: map<string, NetElem>, names: set<string>,
                  pods: map<string, string>, svcs: map<string, string>, elems: map<string, NetElem>, name: string)
    requires Grown(pods0, svcs0, elems0, pods1, svcs1, elems1, names) && Grown(pods1, svcs1, elems1, pods, svcs, elems, {name})
    ensures Grown(pods0, svcs0, elems0, pods, svcs, elems, names + {name}) && svcs1.Keys <= svcs.Keys
  {
    ExtendsFurther(pods0, pods1, pods);
    ExtendsFurther(svcs0, svcs1, svcs);
    assert elems0.Keys + (names + {name}) == elems0.Keys + names + {name};
  }

  /** What adding a name that may be there does. */
  function WithName(ips: map<string, string>, name: string): map<string, string> {
    if name in ips then ips else ips[name := ""]
  }

  lemma ExtendsMore(before: map<string, string>, ips: map<string, string>, name: string)
    requires Extends(before, ips)
    ensures Extends(before, WithName(ips, name)) && name in WithName(ips, name) && ips.Keys <= WithName(ips, name).Keys
  {
  }

  lemma ExtendsFurther(before: map<string, string>, mid: map<string, string>, ips: map<string, string>)
    requires Extends(before, mid) && Extends(mid, ips)
    ensures Extends(before, ips) && mid.Keys <= ips.Keys
  {
  }

  lemma ExtendsSelf(ips: map<string, string>)
    ensures Extends(ips, ips)
  {
  }

  // ----- Numbered filters

  /** The filters of a destination hold a filter for each of these sources, numbered one by one. */
  ghost predicate Numbered(filters: map<string, FilterInfo>, sources: set<string>, next: int) {
    && filters.Keys == sources && next >= 1
    && InRange(filters, next) && Distinct(filters)
    && (forall i :: 1 <= i < next ==> Taken(filters, i))
  }

  ghost predicate InRange(filters: map<string, FilterInfo>, next: int) {
    forall s :: s in filters ==> 1 <= filters[s].uniqueNumber < next
  }

  ghost predicate Distinct(filters: map<string, FilterInfo>) {
    forall s, t :: s in filters && t in filters && filters[s].uniqueNumber == filters[t].uniqueNumber ==> s == t
  }

  ghost predicate Taken(filters: map<string, FilterInfo>, i: int) {
    exists s :: s in filters && filters[s].uniqueNumber == i
  }

  lemma TakenStays(filters: map<string, FilterInfo>, src: string, f: FilterInfo, i: int)
    requires Taken(filters, i) && (src in filters ==> filters[src].uniqueNumber == f.uniqueNumber)
    ensures Taken(filters[src := f], i)
  {
    var s :| s in filters && filters[s].uniqueNumber == i;
    assert s in filters[src := f] && filters[src := f][s].uniqueNumber == i;
  }

  lemma NumberedMore(filters: map<string, FilterInfo>, sources: set<string>, next: int, src: string, f: FilterInfo)
    requires Numbered(filters, sources, next) && src !in sources && f.uniqueNumber == next
    ensures Numbered(filters[src := f], sources + {src}, next + 1)
  {
    var more := filters[src := f];
    assert more.Keys == sources + {src};
    assert src in more && more[src].uniqueNumber == next;
    assert Distinct(more) by { DistinctMore(filters, next, src, f); }
    forall i | 1 <= i < next + 1 ensures Taken(more, i) {
      if i < next { TakenStays(filters, src, f, i); }
    }
  }

  /** The numbers are then as many as the sources: exactly 1 up to how many sources there are. */
  lemma {:induction false} NumberedCount(filters: map<string, FilterInfo>, sources: set<string>, next: int)
    requires Numbered(filters, sources, next)
    ensures next == |sources| + 1
    decreases |sources|
  {
    if next == 1 {
      assert sources == {};
    } else {
      assert Taken(filters, next - 1);
      var s :| s in filters && filters[s].uniqueNumber == next - 1;
      NumberedLess(filters, sources, next, s);
      NumberedCount(filters - {s}, sources - {s}, next - 1);
    }
  }

  lemma NumberedLess(filters: map<string, FilterInfo>, sources: set<string>, next: int, src: string)
    requires Numbered(filters, sources, next) && src in filters && filters[src].uniqueNumber == next - 1
    ensures Numbered(filters - {src}, sources - {src}, next - 1)
  {
    var less := filters - {src};
    assert less.Keys == sources - {src};
    forall i | 1 <= i < next - 1 ensures Taken(less, i) {
      assert Taken(filters, i);
      var s :| s in filters && filters[s].uniqueNumber == i;
      assert s in less && less[s].uniqueNumber == i;
    }
  }

  lemma DistinctMore(filters: map<string, FilterInfo>, next: int, src: string, f: FilterInfo)
    requires InRange(filters, next) && Distinct(filters) && src !in filters && f.uniqueNumber == next >= 1
    ensures Distinct(filters[src := f]) && InRange(filters[src := f], next + 1)
  {
  }

  lemma NumberedReshaped(filters: map<string, FilterInfo>, sources: set<string>, next: int, src: string, shape: Shape)
    requires Numbered(filters, sources, next) && src in filters
    ensures Numbered(filters[src := filters[src].(shape := shape)], sources, next)
  {
    var f := filters[src].(shape := shape);
    assert filters[src := f].Keys == filters.Keys;
    var more := filters[src := f];
    forall i | 1 <= i < next ensures Taken(more, i) {
      TakenStays(filters, src, f, i);
    }
  }

  // ----- The store

  /** The store with a filter's shape, or its rule, written. */
  function WithShape(store: Store, dst: string, f: FilterInfo): Store {
    store.(shapes := store.shapes[(dst, f.uniqueNumber) := f.shape])
  }

  function WithRule(store: Store, dst: string, src: string, f: FilterInfo): Store {
    store.(rules := store.rules[(dst, f.uniqueNumber) := FilterRule(src, f.srcIp, f.srcSvcIp)])
  }

  /** Two stores agree on the entries of a destination. */
  ghost predicate Agree(a: Store, b: Store, dst: string) {
    && (forall i :: (dst, i) in a.shapes <==> (dst, i) in b.shapes)
    && (forall i :: (dst, i) in a.rules <==> (dst, i) in b.rules)
    && (forall i :: (dst, i) in a.shapes && (dst, i) in b.shapes ==> a.shapes[(dst, i)] == b.shapes[(dst, i)])
    && (forall i :: (dst, i) in a.rules && (dst, i) in b.rules ==> a.rules[(dst, i)] == b.rules[(dst, i)])
  }

  lemma AgreedStores(a: Store, b: Store, dst: string, filters: map<string, FilterInfo>)
    requires Agree(a, b, dst) && Stores(a, dst, filters)
    ensures Stores(b, dst, filters)
  {
    forall s | s in filters ensures Stored(b, dst, s, filters[s]) {
      assert Stored(a, dst, s, filters[s]);
    }
    forall i | HasEntry(b, dst, i) ensures Taken(filters, i) {
      assert HasEntry(a, dst, i);
    }
  }

  lemma StoresMore(store: Store, dst: string, filters: map<string, FilterInfo>, src: string, f: FilterInfo)
    requires Stores(store, dst, filters) && src !in filters && InRange(filters, f.uniqueNumber)
    ensures Stores(WithRule(WithShape(store, dst, f), dst, src, f), dst, filters[src := f])
  {
    var more, store' := filters[src := f], WithRule(WithShape(store, dst, f), dst, src, f);
    forall s | s in more ensures Stored(store', dst, s, more[s]) {
      if s != src { assert Stored(store, dst, s, filters[s]); }
    }
    forall i | HasEntry(store', dst, i) ensures Taken(more, i) {
      if i == f.uniqueNumber {
        assert src in more && more[src].uniqueNumber == i;
      } else {
        assert HasEntry(store, dst, i);
        TakenStays(filters, src, f, i);
      }
    }
  }

  lemma StoresReshaped(store: Store, dst: string, filters: map<string, FilterInfo>, src: string, shape: Shape)
    requires Stores(store, dst, filters) && src in filters && Distinct(filters)
    ensures var f := filters[src].(shape := shape); Stores(WithShape(store, dst, f), dst, filters[src := f])
  {
    var f := filters[src].(shape := shape);
    var more, store' := filters[src := f], WithShape(store, dst, f);
    forall s | s in more ensures Stored(store', dst, s, more[s]) {
      assert Stored(store, dst, s, filters[s]);
    }
    forall i | HasEntry(store', dst, i) ensures Taken(more, i) {
      assert Stored(store, dst, src, filters[src]);
      assert HasEntry(store, dst, i);
      TakenStays(filters, src, f, i);
    }
  }

  /** Writing for one destination leaves the others' entries. */
  lemma WritesAgree(store: Store, dst: string, src: string, f: FilterInfo, other: string)
    requires other != dst
    ensures Agree(store, WithShape(store, dst, f), other) && Agree(store, WithRule(store, dst, src, f), other)
  {
  }

  lemma AgreeTrans(a: Store, b: Store, c: Store, dst: string)
    requires Agree(a, b, dst) && Agree(b, c, dst)
    ensures Agree(a, c, dst)
  {
  }

  /** The stored shapes and filter rules, by destination and filter number. */
  datatype Store = Store(shapes: map<(string, int), Shape>, rules: map<(string, int), FilterRule>)

  const EMPTY_STORE := Store(map[], map[])

  /** A filter's entries in the store. */
  predicate Stored(store: Store, dst: string, src: string, f: FilterInfo) {
    var key := (dst, f.uniqueNumber);
    && key in store.shapes && store.shapes[key] == f.shape
    && key in store.rules && store.rules[key] == FilterRule(src, f.srcIp, f.srcSvcIp)
  }

  predicate HasEntry(store: Store, dst: string, i: int) {
    (dst, i) in store.shapes || (dst, i) in store.rules
  }

  /** The store holds the entries of a destination's filters and no others for it. */
  ghost predicate Stores(store: Store, dst: string, filters: map<string, FilterInfo>) {
    && (forall s :: s in filters ==> Stored(store, dst, s, filters[s]))
    && (forall i :: HasEntry(store, dst, i) ==> Taken(filters, i))
  }

  /** A network element: one per process, held in the engine's map alone. */
  datatype NetElem = NetElem(filters: map<string, FilterInfo>, ip: string, nextUniqueNumber: int)

  predicate Fresh(e: NetElem) {
    e.filters == map[] && e.nextUniqueNumber == 1
  }

  /** Before the engine is ready the store is empty and every element is a process waited for, without filters. */
  ghost predicate Waiting(elems: map<string, NetElem>, ips: map<string, string>, store: Store) {
    && elems.Keys == ips.Keys && store == EMPTY_STORE
    && forall k {:trigger Awaiting(elems, ips, k)} :: k in elems ==> Awaiting(elems, ips, k)
  }

  /** An element without filters, with the address of its process as far as it is known. */
  predicate Awaiting(elems: map<string, NetElem>, ips: map<string, string>, k: string) {
    k in elems && k in ips && Fresh(elems[k]) && elems[k].ip == ips[k]
  }

  /** An element when the engine is ready: one filter per other process waited for, numbered from 1, with
      the other's address; none for a process that came later. */
  ghost predicate Filtered(name: string, e: NetElem, ips: map<string, string>, svcs: map<string, string>, store: Store) {
    && Stores(store, name, e.filters)
    && (name !in ips ==> Fresh(e))
    && (name in ips ==> Numbered(e.filters, ips.Keys - {name}, e.nextUniqueNumber))
    && Addressed(e.filters, ips, svcs)
  }

  function SvcIpOf(svcs: map<string, string>, name: string): string {
    if name in svcs then svcs[name] else ""
  }

  /** Filters are for processes waited for, with their addresses and those of the services of their names. */
  ghost predicate Addressed(filters: map<string, FilterInfo>, ips: map<string, string>, svcs: map<string, string>) {
    forall s :: s in filters ==> s in ips && filters[s].srcIp == ips[s] && filters[s].srcSvcIp == SvcIpOf(svcs, s)
  }

  /** Filters as they are made: they shape nothing yet. */
  ghost predicate Unshaped(filters: map<string, FilterInfo>) {
    forall s :: s in filters ==> filters[s].shape == NO_SHAPE
  }

  ghost predicate Serving(elems: map<string, NetElem>, ips: map<string, string>, svcs: map<string, string>,
                          store: Store) {
    && ips.Keys <= elems.Keys
    && AllFiltered(elems, ips, svcs, store, elems.Keys)
    && OnlyFor(store, elems.Keys)
  }

  /** Counters say how many addresses are wanted and how many are known; when ready all are known. */
  ghost predicate Counts(ips: map<string, string>, wanted: int, known: int, ready: bool) {
    var counts := wanted == |ips| && known == Known(ips) && (ready ==> forall k :: k in ips ==> ips[k] != "");
    counts
  }

  lemma CountsTaken(ips: map<string, string>, wanted: int, known: int, name: string, ip: string)
    requires Counts(ips, wanted, known, false) && name in ips && ips[name] == "" && ip != ""
    ensures Counts(ips[name := ip], wanted, known + 1, false)
  {
    KnownSet(ips, name, ip);
  }

  /** How elements and store stand, before and once the engine is ready. */
  ghost predicate Standing(ready: bool, elems: map<string, NetElem>, ips: map<string, string>, svcs: map<string, string>,
                           store: Store) {
    if ready then Serving(elems, ips, svcs, store) else Waiting(elems, ips, store)
  }

  /** The elements with one for a process, made with its address unless it is there. */
  function WithElement(elems: map<string, NetElem>, ips: map<string, string>, name: string): map<string, NetElem> {
    if name in elems then elems else elems[name := NetElem(map[], if name in ips then ips[name] else "", 1)]
  }

  /** A process that comes when the engine is ready gets an element without filters. */
  lemma LateElement(elems: map<string, NetElem>, ips: map<string, string>, svcs: map<string, string>, store: Store,
                    name: string)
    requires Serving(elems, ips, svcs, store)
    ensures Serving(WithElement(elems, ips, name), ips, svcs, store) && Keeps(elems, WithElement(elems, ips, name))
  {
    var more := WithElement(elems, ips, name);
    if name !in elems {
      assert name !in ips;
      forall k | k in more ensures Filtered(k, more[k], ips, svcs, store) {
        if k != name { assert Filtered(k, elems[k], ips, svcs, store); }
      }
    }
  }

  /** One that comes before is waited for. */
  lemma NewElement(elems: map<string, NetElem>, ips: map<string, string>, store: Store, name: string)
    requires Waiting(elems, ips, store)
    ensures Waiting(WithElement(elems, WithName(ips, name), name), WithName(ips, name), store)
    ensures Keeps(elems, WithElement(elems, WithName(ips, name), name))
  {
    var ips', elems' := WithName(ips, name), WithElement(elems, WithName(ips, name), name);
    forall k | k in elems' ensures Awaiting(elems', ips', k) {
      if k in elems { assert Awaiting(elems, ips, k); }
    }
  }

  /** What is waited for once a process has come. */
  function Awaited(ready: bool, ips: map<string, string>, name: string): map<string, string> {
    if ready then ips else WithName(ips, name)
  }

  lemma ElementAdded(ready: bool, elems: map<string, NetElem>, ips: map<string, string>, svcs: map<string, string>,
                     store: Store, name: string)
    requires Standing(ready, elems, ips, svcs, store)
    ensures var pods := Awaited(ready, ips, name);
      && Standing(ready, WithElement(elems, pods, name), pods, svcs, store)
      && Keeps(elems, WithElement(elems, pods, name)) && Extends(ips, pods)
      && WithElement(elems, pods, name).Keys == elems.Keys + {name}
  {
    ExtendsSelf(ips);
    ExtendsMore(ips, ips, name);
    if ready {
      LateElement(elems, ips, svcs, store, name);
    } else {
      NewElement(elems, ips, store, name);
    }
  }

  /** An address found goes to the pod's element. */
  function WithIp(elems: map<string, NetElem>, name: string, ip: string): map<string, NetElem> {
    if name in elems then elems[name := elems[name].(ip := ip, nextUniqueNumber := 1)] else elems
  }

  lemma WithIpWaits(elems: map<string, NetElem>, ips: map<string, string>, svcs: map<string, string>, store: Store,
                    name: string, ip: string)
    requires Standing(false, elems, ips, svcs, store) && name in ips
    ensures Standing(false, WithIp(elems, name, ip), ips[name := ip], svcs, store)
    ensures WithIp(elems, name, ip).Keys == elems.Keys
  {
    forall k | k in elems ensures Awaiting(WithIp(elems, name, ip), ips[name := ip], k) {
      assert Awaiting(elems, ips, k);
    }
  }

  // ----- What the numbers mean once the engine is ready

  /** When the engine is ready each of n processes has exactly the filters 1 to n - 1, one for each other
      process, with that process's known address, and the store has exactly these. */
  lemma ReadyMeans(elems: map<string, NetElem>, ips: map<string, string>, svcs: map<string, string>, store: Store,
                   dst: string)
    requires Serving(elems, ips, svcs, store) && dst in ips && forall k :: k in ips ==> ips[k] != ""
    ensures dst in elems && elems[dst].filters.Keys == ips.Keys - {dst} && elems[dst].nextUniqueNumber == |ips|
    ensures forall i :: 1 <= i < |ips| <==> Taken(elems[dst].filters, i)
    ensures forall i :: 1 <= i < |ips| <==> HasEntry(store, dst, i)
    ensures Distinct(elems[dst].filters)
    ensures forall s :: s in elems[dst].filters ==>
      var f := elems[dst].filters[s];
      && f.srcIp == ips[s] != "" && f.srcSvcIp == (if s in svcs then svcs[s] else "")
      && var key := (dst, f.uniqueNumber);
      && key in store.shapes && store.shapes[key] == f.shape
      && key in store.rules && store.rules[key].srcName == s
      && store.rules[key].srcIp == f.srcIp && store.rules[key].srcSvcIp == f.srcSvcIp
  {
    var e := elems[dst];
    assert Filtered(dst, e, ips, svcs, store);
    NumberedCount(e.filters, ips.Keys - {dst}, e.nextUniqueNumber);
    forall i | Taken(e.filters, i) ensures HasEntry(store, dst, i) {
      var s :| s in e.filters && e.filters[s].uniqueNumber == i;
      assert Stored(store, dst, s, e.filters[s]);
    }
  }

  // ----- Reshaping

  /** The shape an update asks for: whole numbers towards zero, hundredths of a percent, bits per second. */
  function ShapeOf(rate: real, latency: real, latencyVariation: real, distribution: string, packetLoss: real): Shape {
    Shape(Trunc(latency), Trunc(latencyVariation), Lower(distribution), Trunc(100.0 * packetLoss), Trunc(THROUGHPUT_UNIT * rate))
  }

  function Reshaped(e: NetElem, src: string, shape: Shape): NetElem
    requires src in e.filters
  {
    e.(filters := e.filters[src := e.filters[src].(shape := shape)])
  }

  lemma ReshapedServes(elems: map<string, NetElem>, ips: map<string, string>, svcs: map<string, string>,
                       store: Store, dst: string, src: string, shape: Shape)
    requires Serving(elems, ips, svcs, store) && dst in elems && src in elems[dst].filters
    ensures var e := Reshaped(elems[dst], src, shape);
      Serving(elems[dst := e], ips, svcs, WithShape(store, dst, e.filters[src]))
  {
    var e := Reshaped(elems[dst], src, shape);
    var store' := WithShape(store, dst, e.filters[src]);
    assert Filtered(dst, elems[dst], ips, svcs, store);
    StoresReshaped(store, dst, elems[dst].filters, src, shape);
    NumberedReshaped(elems[dst].filters, ips.Keys - {dst}, elems[dst].nextUniqueNumber, src, shape);
    assert Filtered(dst, e, ips, svcs, store');
    forall d | d != dst {
      WritesAgree(store, dst, src, e.filters[src], d);
    }
    OthersStay(elems, ips, svcs, store, dst, e, store');
    FilledEntries(elems, store, dst, store');
  }

  lemma OthersStay(elems: map<string, NetElem>, ips: map<string, string>, svcs: map<string, string>, store: Store,
                   dst: string, e: NetElem, store': Store)
    requires AllFiltered(elems, ips, svcs, store, elems.Keys) && dst in elems && Filtered(dst, e, ips, svcs, store')
    requires forall d :: d != dst ==> Agree(store, store', d)
    ensures AllFiltered(elems[dst := e], ips, svcs, store', elems[dst := e].Keys)
  {
    var more := elems[dst := e];
    forall k | k in more ensures Filtered(k, more[k], ips, svcs, store') {
      if k != dst {
        assert Filtered(k, elems[k], ips, svcs, store);
        AgreedStores(store, store', k, elems[k].filters);
      }
    }
  }

  // ----- Filling the filters

  /** What holds of a destination while its filters are made: those for the sources seen. */
  ghost predicate Filling(dst: string, e: NetElem, seen: set<string>, ips: map<string, string>,
                          svcs: map<string, string>, store0: Store, store: Store) {
    && seen <= ips.Keys && Numbered(e.filters, seen, e.nextUniqueNumber) && Stores(store, dst, e.filters)
    && Addressed(e.filters, ips, svcs) && Unshaped(e.filters)
    && (forall d :: d != dst ==> Agree(store0, store, d))
  }

  /** The element with a filter for one more source. */
  function WithFilter(e: NetElem, src: string, f: FilterInfo): NetElem {
    e.(filters := e.filters[src := f], nextUniqueNumber := e.nextUniqueNumber + 1)
  }

  lemma FillMore(dst: string, e: NetElem, seen: set<string>, ips: map<string, string>, svcs: map<string, string>,
                 store0: Store, store: Store,
                 src: string, f: FilterInfo)
    requires Filling(dst, e, seen, ips, svcs, store0, store) && src in ips && src !in seen
    requires f == FilterFor(e, src, ips, svcs)
    ensures Filling(dst, WithFilter(e, src, f), seen + {src}, ips, svcs, store0, WithRule(WithShape(store, dst, f), dst, src, f))
  {
    NumberedMore(e.filters, seen, e.nextUniqueNumber, src, f);
    StoresMore(store, dst, e.filters, src, f);
    var store' := WithRule(WithShape(store, dst, f), dst, src, f);
    forall d | d != dst ensures Agree(store0, store', d) {
      AgreesStill(store0, store, dst, src, f, d);
    }
    AddressedMore(e.filters, ips, svcs, src, f);
  }

  lemma AgreesStill(store0: Store, store: Store, dst: string, src: string, f: FilterInfo, d: string)
    requires Agree(store0, store, d) && d != dst
    ensures Agree(store0, WithRule(WithShape(store, dst, f), dst, src, f), d)
  {
    WritesAgree(store, dst, src, f, d);
    WritesAgree(WithShape(store, dst, f), dst, src, f, d);
    AgreeTrans(store, WithShape(store, dst, f), WithRule(WithShape(store, dst, f), dst, src, f), d);
    AgreeTrans(store0, store, WithRule(WithShape(store, dst, f), dst, src, f), d);
  }

  lemma AddressedMore(filters: map<string, FilterInfo>, ips: map<string, string>, svcs: map<string, string>,
                      src: string, f: FilterInfo)
    requires Addressed(filters, ips, svcs) && Unshaped(filters)
    requires src in ips && f.srcIp == ips[src] && f.srcSvcIp == SvcIpOf(svcs, src) && f.shape == NO_SHAPE
    ensures Addressed(filters[src := f], ips, svcs) && Unshaped(filters[src := f])
  {
  }

  /** A destination's new filter for a source. */
  function FilterFor(e: NetElem, src: string, ips: map<string, string>, svcs: map<string, string>): FilterInfo
    requires src in ips
  {
    FilterInfo(ips[src], SvcIpOf(svcs, src), e.nextUniqueNumber, NO_SHAPE)
  }

  /** The element and the store once one more source has come. */
  function FillNext(dst: string, b: (NetElem, Store), src: string, ips: map<string, string>,
                    svcs: map<string, string>): (NetElem, Store)
    requires src in ips
  {
    if src in b.0.filters then b
    else
      var f := FilterFor(b.0, src, ips, svcs);
      (WithFilter(b.0, src, f), WithRule(WithShape(b.1, dst, f), dst, src, f))
  }

  lemma FillNextFills(dst: string, b: (NetElem, Store), src: string, ips: map<string, string>, svcs: map<string, string>,
                      seen: set<string>, store0: Store)
    requires src in ips && Filling(dst, b.0, seen, ips, svcs, store0, b.1)
    ensures var r := FillNext(dst, b, src, ips, svcs);
      r.0.ip == b.0.ip && Filling(dst, r.0, seen + {src}, ips, svcs, store0, r.1)
  {
    if src in b.0.filters {
      assert seen + {src} == seen;
    } else {
      FillMore(dst, b.0, seen, ips, svcs, store0, b.1, src, FilterFor(b.0, src, ips, svcs));
    }
  }

  /** The element and the store once the first n sources have come, in this order. */
  function FilledTo(dst: string, b: (NetElem, Store), ips: map<string, string>, svcs: map<string, string>,
                    order: seq<string>, n: nat): (NetElem, Store)
    requires n <= |order| && forall i :: 0 <= i < |order| ==> order[i] in ips
  {
    if n == 0 then b else FillNext(dst, FilledTo(dst, b, ips, svcs, order, n - 1), order[n - 1], ips, svcs)
  }

  /** The first n of a list. */
  function SeenOf(order: seq<string>, n: nat): set<string>
    requires n <= |order|
  {
    if n == 0 then {} else SeenOf(order, n - 1) + {order[n - 1]}
  }

  lemma {:induction false} SeenOfLonger(order: seq<string>, x: string, n: nat)
    requires n <= |order|
    ensures SeenOf(order + [x], n) == SeenOf(order, n)
  {
    if n > 0 { SeenOfLonger(order, x, n - 1); }
  }

  lemma {:induction false} FilledToFills(dst: string, b: (NetElem, Store), ips: map<string, string>,
                                         svcs: map<string, string>,
                                         order: seq<string>, n: nat)
    requires n <= |order| && forall i :: 0 <= i < |order| ==> order[i] in ips
    requires Filling(dst, b.0, {}, ips, svcs, b.1, b.1)
    ensures var r := FilledTo(dst, b, ips, svcs, order, n);
      r.0.ip == b.0.ip && Filling(dst, r.0, SeenOf(order, n), ips, svcs, b.1, r.1)
  {
    if n > 0 {
      FilledToFills(dst, b, ips, svcs, order, n - 1);
      FillNextFills(dst, FilledTo(dst, b, ips, svcs, order, n - 1), order[n - 1], ips, svcs, SeenOf(order, n - 1), b.1);
    }
  }

  /** What holds while destinations are filled one by one. */
  ghost predicate Halfway(elems: map<string, NetElem>, ips: map<string, string>, svcs: map<string, string>,
                          store: Store, rest: set<string>) {
    && elems.Keys == ips.Keys && rest <= ips.Keys
    && (forall k {:trigger elems[k]} :: k in elems ==> elems[k].ip == ips[k])
    && (forall k {:trigger k in rest} :: k in rest ==> Fresh(elems[k]) && Agree(EMPTY_STORE, store, k))
    && AllFiltered(elems, ips, svcs, store, elems.Keys - rest) && AllUnshaped(elems)
    && OnlyFor(store, elems.Keys)
  }

  ghost predicate AllUnshaped(elems: map<string, NetElem>) {
    forall k {:trigger Unshaped(elems[k].filters)} :: k in elems ==> Unshaped(elems[k].filters)
  }

  ghost predicate AllFiltered(elems: map<string, NetElem>, ips: map<string, string>, svcs: map<string, string>,
                              store: Store, names: set<string>) {
    forall k {:trigger Filtered(k, elems[k], ips, svcs, store)} :: k in names && k in elems ==> Filtered(k, elems[k], ips, svcs, store)
  }

  /** The store has entries for these destinations alone. */
  ghost predicate OnlyFor(store: Store, names: set<string>) {
    forall d, i :: HasEntry(store, d, i) ==> d in names
  }

  lemma FillStarts(dst: string, e: NetElem, ips: map<string, string>, svcs: map<string, string>, store: Store)
    requires Fresh(e) && Agree(EMPTY_STORE, store, dst)
    ensures Filling(dst, e, {}, ips, svcs, store, store)
  {
    forall i ensures !HasEntry(store, dst, i) {
      assert (dst, i) !in EMPTY_STORE.shapes && (dst, i) !in EMPTY_STORE.rules;
    }
  }

  lemma FilledOne(elems: map<string, NetElem>, ips: map<string, string>, svcs: map<string, string>, store: Store,
                  rest: set<string>,
                  dst: string, e: NetElem, store': Store)
    requires Halfway(elems, ips, svcs, store, rest) && dst in rest && e.ip == elems[dst].ip
    requires Filling(dst, e, ips.Keys - {dst}, ips, svcs, store, store')
    ensures Halfway(elems[dst := e], ips, svcs, store', rest - {dst})
  {
    assert elems[dst := e].Keys == elems.Keys;
    forall k | k in rest - {dst} {
      UnfilledStays(elems, ips, svcs, store, rest, dst, e, store', k);
    }
    FilledStay(elems, ips, svcs, store, rest, dst, e, store');
    FilledEntries(elems, store, dst, store');
  }

  lemma UnfilledStays(elems: map<string, NetElem>, ips: map<string, string>, svcs: map<string, string>, store: Store,
                      rest: set<string>,
                      dst: string, e: NetElem, store': Store, k: string)
    requires Halfway(elems, ips, svcs, store, rest) && k in rest && k != dst && Agree(store, store', k)
    ensures k in elems && Fresh(elems[dst := e][k]) && Agree(EMPTY_STORE, store', k)
  {
    AgreeTrans(EMPTY_STORE, store, store', k);
  }

  lemma FilledStay(elems: map<string, NetElem>, ips: map<string, string>, svcs: map<string, string>, store: Store,
                   rest: set<string>,
                   dst: string, e: NetElem, store': Store)
    requires AllFiltered(elems, ips, svcs, store, elems.Keys - rest) && dst in rest && dst in elems && dst in ips
    requires Filling(dst, e, ips.Keys - {dst}, ips, svcs, store, store')
    ensures AllFiltered(elems[dst := e], ips, svcs, store', elems.Keys - (rest - {dst}))
  {
    var more := elems[dst := e];
    forall k | k in elems.Keys - (rest - {dst}) ensures Filtered(k, more[k], ips, svcs, store') {
      if k != dst {
        assert Filtered(k, elems[k], ips, svcs, store);
        AgreedStores(store, store', k, elems[k].filters);
      }
    }
  }

  lemma FilledEntries(elems: map<string, NetElem>, store: Store, dst: string, store': Store)
    requires OnlyFor(store, elems.Keys) && dst in elems && forall d :: d != dst ==> Agree(store, store', d)
    ensures OnlyFor(store', elems.Keys)
  {
    forall d, i | HasEntry(store', d, i) ensures d in elems {
      if d != dst {
        assert Agree(store, store', d);
        assert HasEntry(store, d, i);
      }
    }
  }

  class TcEngine {
    var state: EngineState
    var podCountReq: int
    var podCount: int
    var svcCountReq: int
    var svcCount: int
    var podIPMap: map<string, string>
    var svcIPMap: map<string, string>
    var netElemMap: map<string, NetElem>
    var store: Store

    ghost predicate Counted()
      reads this`state, this`podCountReq, this`podCount, this`svcCountReq, this`svcCount, this`podIPMap, this`svcIPMap
    {
      Counts(podIPMap, podCountReq, podCount, state == Ready) && Counts(svcIPMap, svcCountReq, svcCount, state == Ready)
    }

    ghost predicate Valid()
      reads this
    {
      var valid :=
        && Counted()
        && Standing(state == Ready, netElemMap, podIPMap, svcIPMap, store);
      valid
    }

    constructor ()
      ensures Valid() && state == Idle && podIPMap == map[] && netElemMap == map[]
    {
      state := Idle;
      podCountReq, podCount, svcCountReq, svcCount := 0, 0, 0, 0;
      podIPMap, svcIPMap, netElemMap, store := map[], map[], map[], EMPTY_STORE;
    }

    method AddPod(name: string)
      requires Counted()
      modifies this`podIPMap, this`podCountReq
      ensures Counted()
      ensures podIPMap == Awaited(state == Ready, old(podIPMap), name)
    {
      if name !in podIPMap && state != Ready {
        KnownAdded(podIPMap, name);
        podIPMap := podIPMap[name := ""];
        podCountReq := podCountReq + 1;
      }
    }

    method AddSvc(name: string)
      requires Counted()
      modifies this`svcIPMap, this`svcCountReq
      ensures Counted()
      ensures svcIPMap == if state == Ready then old(svcIPMap) else WithName(old(svcIPMap), name)
    {
      if name !in svcIPMap && state != Ready {
        KnownAdded(svcIPMap, name);
        svcIPMap := svcIPMap[name := ""];
        svcCountReq := svcCountReq + 1;
      }
    }

    method AddServices(services: seq<Service>)
      requires Counted()
      modifies this`svcIPMap, this`svcCountReq
      ensures Counted()
      ensures Extends(old(svcIPMap), svcIPMap) && (state == Ready ==> svcIPMap == old(svcIPMap))
      ensures state != Ready ==> AwaitsAlso(old(svcIPMap), svcIPMap, services, |services|)
    {
      ghost var before := svcIPMap;
      ExtendsSelf(before);
      for i := 0 to |services|
        invariant Counted() && Extends(before, svcIPMap)
        invariant if state == Ready then svcIPMap == before else AwaitsAlso(before, svcIPMap, services, i)
      {
        ghost var sofar := svcIPMap;
        AddService(services[i], before);
        if state != Ready {
          AwaitsOneMore(before, sofar, svcIPMap, services, i);
        }
      }
    }

    method AddService(service: Service, ghost before: map<string, string>)
      requires Counted() && Extends(before, svcIPMap)
      modifies this`svcIPMap, this`svcCountReq
      ensures Counted() && Extends(before, svcIPMap)
      ensures if state == Ready then svcIPMap == old(svcIPMap)
        else forall k :: k in svcIPMap <==> k in old(svcIPMap) || Names(service, k)
    {
      ExtendsMore(before, svcIPMap, service.name);
      AddSvc(service.name);
      if service.group != "" {
        ExtendsMore(before, svcIPMap, service.group);
        AddSvc(service.group);
      }
    }

    /** All is forgotten. */
    method StopScenario()
      modifies this
      ensures Valid() && state == Idle
      ensures podIPMap == map[] && svcIPMap == map[] && netElemMap == map[] && store == EMPTY_STORE
    {
      netElemMap, podIPMap, svcIPMap := map[], map[], map[];
      state := Idle;
      podCountReq, podCount, svcCountReq, svcCount := 0, 0, 0, 0;
      store := EMPTY_STORE;
    }

    /** The elements and addresses wanted grow by those of one process; when ready, by the element alone. */
    method AddProcess(p: Process)
      requires Valid()
      modifies this`podIPMap, this`podCountReq, this`svcIPMap, this`svcCountReq, this`netElemMap
      ensures Valid()
      ensures Grown(old(podIPMap), old(svcIPMap), old(netElemMap), podIPMap, svcIPMap, netElemMap, {p.name})
      ensures Waited(state == Ready, old(podIPMap), old(svcIPMap), podIPMap, svcIPMap, [p], 1)
    {
      ExtendsSelf(svcIPMap);
      OneNamed(p);
      AddPodAndElement(p.name);
      AddServices(p.services);
    }

    method AddPodAndElement(name: string)
      requires Valid()
      modifies this`podIPMap, this`podCountReq, this`netElemMap
      ensures Valid() && netElemMap.Keys == old(netElemMap.Keys) + {name}
      ensures Extends(old(podIPMap), podIPMap) && (state == Ready ==> podIPMap == old(podIPMap))
      ensures Keeps(old(netElemMap), netElemMap)
    {
      ElementAdded(state == Ready, netElemMap, podIPMap, svcIPMap, store, name);
      AddPod(name);
      AddElement(name);
    }

    method AddElement(name: string)
      modifies this`netElemMap
      ensures netElemMap == WithElement(old(netElemMap), podIPMap, name)
    {
      if name !in netElemMap {
        var ip := if name in podIPMap then podIPMap[name] else "";
        netElemMap := netElemMap[name := NetElem(map[], ip, 1)];
      }
    }

    method ProcessScenario(processes: seq<Process>)
      requires Valid()
      modifies this`podIPMap, this`podCountReq, this`svcIPMap, this`svcCountReq, this`netElemMap
      ensures Valid()
      ensures Grown(old(podIPMap), old(svcIPMap), old(netElemMap), podIPMap, svcIPMap, netElemMap, ProcessNames(processes))
      ensures Waited(state == Ready, old(podIPMap), old(svcIPMap), podIPMap, svcIPMap, processes, |processes|)
    {
      ghost var pods0, svcs0, elems0 := podIPMap, svcIPMap, netElemMap;
      NamesAll(processes);
      GrownSelf(pods0, svcs0, elems0);
      for i := 0 to |processes|
        invariant Valid() && Grown(pods0, svcs0, elems0, podIPMap, svcIPMap, netElemMap, ProcessNames(processes[..i]))
        invariant Waited(state == Ready, pods0, svcs0, podIPMap, svcIPMap, processes, i)
      {
        ghost var pods1, svcs1, elems1 := podIPMap, svcIPMap, netElemMap;
        AddProcess(processes[i]);
        OneMoreProcess(state == Ready, pods0, svcs0, elems0, pods1, svcs1, elems1, podIPMap, svcIPMap, netElemMap, processes, i);
      }
    }

    /** An update of the active scenario; none stops everything. An idle engine starts to wait. */
    method ProcessActiveScenarioUpdate(scenario: Option<seq<Process>>)
      requires Valid()
      modifies this
      ensures Valid()
      ensures scenario.None? ==> state == Idle && netElemMap == map[] && store == EMPTY_STORE
      ensures scenario.Some? ==>
        && state == (if old(state) == Idle then Initializing else old(state))
        && Grown(old(podIPMap), old(svcIPMap), old(netElemMap), podIPMap, svcIPMap, netElemMap, ProcessNames(scenario.value))
        && Waited(old(state) == Ready, old(podIPMap), old(svcIPMap), podIPMap, svcIPMap, scenario.value, |scenario.value|)
        && store == old(store)
    {
      if scenario.None? {
        StopScenario();
        return;
      }
      ProcessScenario(scenario.value);
      if state == Idle {
        state := Initializing;
      }
    }

    // ----- Polling

    /** The addresses found for pods are taken. */
    method TakePods(pods: seq<(string, string)>)
      requires Valid() && state == Initializing
      modifies this`podIPMap, this`podCount, this`netElemMap
      ensures Valid() && podIPMap == TakenAll(old(podIPMap), pods, |pods|) && netElemMap.Keys == old(netElemMap.Keys)
    {
      ghost var ips := podIPMap;
      for i := 0 to |pods|
        invariant Valid() && podIPMap == TakenAll(ips, pods, i) && netElemMap.Keys == old(netElemMap.Keys)
      {
        TakePod(pods[i].0, pods[i].1);
      }
    }

    method TakePod(podName: string, podIP: string)
      requires Valid() && state == Initializing
      modifies this`podIPMap, this`podCount, this`netElemMap
      ensures Valid() && podIPMap == TakeIp(old(podIPMap), podName, podIP) && netElemMap.Keys == old(netElemMap.Keys)
    {
      if podName in podIPMap && podIPMap[podName] == "" && podIP != "" {
        CountsTaken(podIPMap, podCountReq, podCount, podName, podIP);
        WithIpWaits(netElemMap, podIPMap, svcIPMap, store, podName, podIP);
        podIPMap := podIPMap[podName := podIP];
        SetIp(podName, podIP);
        podCount := podCount + 1;
      }
    }

    method SetIp(podName: string, podIP: string)
      modifies this`netElemMap
      ensures netElemMap == WithIp(old(netElemMap), podName, podIP)
    {
      if podName in netElemMap {
        netElemMap := netElemMap[podName := netElemMap[podName].(ip := podIP, nextUniqueNumber := 1)];
      }
    }

    /** The addresses found for services are taken. */
    method TakeSvcs(svcs: seq<(string, string)>)
      requires Counted() && state != Ready
      modifies this`svcIPMap, this`svcCount
      ensures Counted() && svcIPMap == TakenAll(old(svcIPMap), svcs, |svcs|)
    {
      ghost var ips := svcIPMap;
      for i := 0 to |svcs|
        invariant Counted() && svcIPMap == TakenAll(ips, svcs, i)
      {
        var svcName, svcIP := svcs[i].0, svcs[i].1;
        if svcName in svcIPMap && svcIPMap[svcName] == "" && svcIP != "" {
          CountsTaken(svcIPMap, svcCountReq, svcCount, svcName, svcIP);
          svcIPMap := svcIPMap[svcName := svcIP];
          svcCount := svcCount + 1;
        }
      }
    }

    /** The addresses found are taken, of pods and of services, where some are still unknown. */
    method TakeAddresses(pods: seq<(string, string)>, svcs: seq<(string, string)>)
      requires Valid() && state == Initializing
      modifies this`podIPMap, this`podCount, this`netElemMap, this`svcIPMap, this`svcCount
      ensures Valid() && netElemMap.Keys == old(netElemMap.Keys)
      ensures podIPMap == TakenAll(old(podIPMap), pods, |pods|) && svcIPMap == TakenAll(old(svcIPMap), svcs, |svcs|)
    {
      NoneToTake(podIPMap, pods);
      NoneToTake(svcIPMap, svcs);
      if podCount < podCountReq {
        TakePods(pods);
      }
      if svcCount < svcCountReq {
        TakeSvcs(svcs);
      }
    }

    /** A tick of the poll. The engine becomes ready exactly when all addresses wanted are known, and then
        every destination has its filters. */
    method Poll(pods: seq<(string, string)>, svcs: seq<(string, string)>)
      requires Valid()
      modifies this
      ensures Valid() && podIPMap.Keys == old(podIPMap.Keys) && svcIPMap.Keys == old(svcIPMap.Keys)
      ensures netElemMap.Keys == old(netElemMap.Keys)
      ensures old(state) != Initializing ==>
        && state == old(state) && podIPMap == old(podIPMap) && svcIPMap == old(svcIPMap)
        && netElemMap == old(netElemMap) && store == old(store)
      ensures old(state) == Initializing ==>
        (state == Ready <==> (forall k :: k in podIPMap ==> podIPMap[k] != "") && forall k :: k in svcIPMap ==> svcIPMap[k] != "")
      ensures old(state) == Initializing && state != Ready ==> state == Initializing
      ensures old(state) == Initializing ==>
        podIPMap == TakenAll(old(podIPMap), pods, |pods|) && svcIPMap == TakenAll(old(svcIPMap), svcs, |svcs|)
      ensures old(state) == Initializing && state == Ready ==> AllUnshaped(netElemMap)
      ensures forall k :: k in old(podIPMap) && old(podIPMap)[k] != "" ==> podIPMap[k] == old(podIPMap)[k]
    {
      if state != Initializing {
        return;
      }
      TakenAllMeans(podIPMap, pods, |pods|);
      TakenAllMeans(svcIPMap, svcs, |svcs|);
      TakeAddresses(pods, svcs);
      AllKnown(podIPMap);
      AllKnown(svcIPMap);
      if podCount == podCountReq && svcCount == svcCountReq {
        BecomeReady();
      }
    }

    method BecomeReady()
      requires Valid() && state == Initializing
      requires (forall k :: k in podIPMap ==> podIPMap[k] != "") && forall k :: k in svcIPMap ==> svcIPMap[k] != ""
      modifies this`state, this`netElemMap, this`store
      ensures Valid() && state == Ready && netElemMap.Keys == old(netElemMap.Keys) && AllUnshaped(netElemMap)
    {
      state := Ready;
      SetFilterInfoRules();
    }

    // ----- Filters

    /** An update reshapes one existing filter, and its entry in the store; it makes no filter, and does
        nothing before the engine is ready. */
    method NetCharUpdate(dstName: string, srcName: string, rate: real, latency: real, latencyVariation: real,
                         distribution: string, packetLoss: real) returns (applied: bool)
      requires Valid()
      modifies this`netElemMap, this`store
      ensures Valid()
      ensures applied <==> dstName in old(netElemMap) && srcName in old(netElemMap)[dstName].filters
      ensures applied ==> state == Ready
      ensures !applied ==> netElemMap == old(netElemMap) && store == old(store)
      ensures applied ==>
        var shape := ShapeOf(rate, latency, latencyVariation, distribution, packetLoss);
        && netElemMap == old(netElemMap)[dstName := Reshaped(old(netElemMap)[dstName], srcName, shape)]
        && store == WithShape(old(store), dstName, netElemMap[dstName].filters[srcName])
    {
      if dstName !in netElemMap {
        return false;
      }
      if srcName !in netElemMap[dstName].filters {
        return false;
      }
      assert state != Ready ==> Awaiting(netElemMap, podIPMap, dstName);
      var shape := ShapeOf(rate, latency, latencyVariation, distribution, packetLoss);
      ReshapedServes(netElemMap, podIPMap, svcIPMap, store, dstName, srcName, shape);
      var e := Reshaped(netElemMap[dstName], srcName, shape);
      netElemMap := netElemMap[dstName := e];
      store := WithShape(store, dstName, e.filters[srcName]);
      applied := true;
    }

    /** Every destination gets a filter for each other process, in any order of both. */
    method SetFilterInfoRules()
      requires Waiting(netElemMap, podIPMap, store)
      modifies this`netElemMap, this`store
      ensures Serving(netElemMap, podIPMap, svcIPMap, store) && netElemMap.Keys == old(netElemMap.Keys)
      ensures AllUnshaped(netElemMap)
    {
      var rest := netElemMap.Keys;
      AllHalfway(netElemMap, podIPMap, svcIPMap, store);
      while rest != {}
        invariant rest <= netElemMap.Keys == old(netElemMap.Keys)
        invariant Halfway(netElemMap, podIPMap, svcIPMap, store, rest)
        decreases rest
      {
        var dst :| dst in rest;
        FillElement(dst, rest);
        rest := rest - {dst};
      }
    }

    /** One destination gets its filters, numbered in the order the sources come. */
    method FillElement(dst: string, ghost rest: set<string>)
      requires Halfway(netElemMap, podIPMap, svcIPMap, store, rest) && dst in rest
      modifies this`netElemMap, this`store
      ensures Halfway(netElemMap, podIPMap, svcIPMap, store, rest - {dst}) && netElemMap.Keys == old(netElemMap.Keys)
    {
      ghost var store0 := store;
      FillStarts(dst, netElemMap[dst], podIPMap, svcIPMap, store);
      var e := FillSources(dst, netElemMap[dst]);
      FilledOne(netElemMap, podIPMap, svcIPMap, store0, rest, dst, e, store);
      netElemMap := netElemMap[dst := e];
    }

    method FillSources(dst: string, e0: NetElem) returns (e: NetElem)
      requires netElemMap.Keys == podIPMap.Keys && forall k :: k in netElemMap ==> netElemMap[k].ip == podIPMap[k]
      requires Filling(dst, e0, {}, podIPMap, svcIPMap, store, store)
      modifies this`store
      ensures e.ip == e0.ip && Filling(dst, e, podIPMap.Keys - {dst}, podIPMap, svcIPMap, old(store), store)
    {
      ghost var b := (e0, store);
      var order := InSomeOrder(netElemMap.Keys - {dst});
      e := FillInOrder(dst, e0, order);
      FilledToFills(dst, b, podIPMap, svcIPMap, order, |order|);
    }

    method FillInOrder(dst: string, e0: NetElem, order: seq<string>) returns (e: NetElem)
      requires netElemMap.Keys == podIPMap.Keys && forall k :: k in netElemMap ==> netElemMap[k].ip == podIPMap[k]
      requires forall i :: 0 <= i < |order| ==> order[i] in podIPMap
      modifies this`store
      ensures (e, store) == FilledTo(dst, (e0, old(store)), podIPMap, svcIPMap, order, |order|)
    {
      ghost var b := (e0, store);
      e := e0;
      for i := 0 to |order|
        invariant (e, store) == FilledTo(dst, b, podIPMap, svcIPMap, order, i)
      {
        e := FillSource(dst, e, order[i]);
      }
    }

    method FillSource(dst: string, e0: NetElem, src: string) returns (e: NetElem)
      requires src in podIPMap && src in netElemMap && netElemMap[src].ip == podIPMap[src]
      modifies this`store
      ensures (e, store) == FillNext(dst, (e0, old(store)), src, podIPMap, svcIPMap)
    {
      e := e0;
      if src !in e.filters {
        var svcIp := if src in svcIPMap then svcIPMap[src] else "";
        var f := FilterInfo(netElemMap[src].ip, svcIp, e.nextUniqueNumber, NO_SHAPE);
        e := e.(filters := e.filters[src := f], nextUniqueNumber := e.nextUniqueNumber + 1);
        store := WithShape(store, dst, f);
        store := WithRule(store, dst, src, f);
      }
    }
  }

  /** The elements of a set in some order. */
  method InSomeOrder(names: set<string>) returns (order: seq<string>)
    ensures SeenOf(order, |order|) == names
    ensures forall i :: 0 <= i < |order| ==> order[i] in names
  {
    order := [];
    var rest := names;
    while rest != {}
      invariant rest <= names && SeenOf(order, |order|) == names - rest
      invariant forall i :: 0 <= i < |order| ==> order[i] in names
      decreases rest
    {
      var x :| x in rest;
      SeenOfLonger(order, x, |order|);
      rest := rest - {x};
      order := order + [x];
    }
  }

  lemma AllHalfway(elems: map<string, NetElem>, ips: map<string, string>, svcs: map<string, string>, store: Store)
    requires Waiting(elems, ips, store)
    ensures Halfway(elems, ips, svcs, store, elems.Keys)
  {
    forall k | k in elems ensures Fresh(elems[k]) && elems[k].ip == ips[k] {
      assert Awaiting(elems, ips, k);
    }
  }

  /** The name is that of the service, or of the group it belongs to. */
  predicate Names(s: Service, name: string) {
    name == s.name || (name == s.group && s.group != "")
  }

  ghost predicate NamedBy(services: seq<Service>, n: nat, name: string)
    requires n <= |services|
  {
    exists j :: 0 <= j < n && Names(services[j], name)
  }

  /** Waited for are, beside what was before, the first n services and the groups they belong to. */
  ghost predicate AwaitsAlso(before: map<string, string>, ips: map<string, string>, services: seq<Service>, n: nat)
    requires n <= |services|
  {
    forall k :: k in ips <==> k in before || NamedBy(services, n, k)
  }

  lemma AwaitsOneMore(before: map<string, string>, mid: map<string, string>, ips: map<string, string>,
                      services: seq<Service>, i: nat)
    requires i < |services| && AwaitsAlso(before, mid, services, i)
    requires forall k :: k in ips <==> k in mid || Names(services[i], k)
    ensures AwaitsAlso(before, ips, services, i + 1)
  {
    forall k ensures NamedBy(services, i + 1, k) <==> NamedBy(services, i, k) || Names(services[i], k) {
    }
  }

  ghost predicate NamedByAny(processes: seq<Process>, n: nat, name: string)
    requires n <= |processes|
  {
    exists j :: 0 <= j < n && NamedBy(processes[j].services, |processes[j].services|, name)
  }

  lemma AwaitsMore(before: map<string, string>, mid: map<string, string>, ips: map<string, string>,
                   processes: seq<Process>, i: nat)
    requires i < |processes| && forall k :: k in mid <==> k in before || NamedByAny(processes, i, k)
    requires AwaitsAlso(mid, ips, processes[i].services, |processes[i].services|)
    ensures forall k :: k in ips <==> k in before || NamedByAny(processes, i + 1, k)
  {
    forall k ensures NamedByAny(processes, i + 1, k)
      <==> NamedByAny(processes, i, k) || NamedBy(processes[i].services, |processes[i].services|, k) {
    }
  }

  /** When the engine is ready no address is added; else, beside those before, exactly the services of the first n
      processes are waited for, and their groups. */
  ghost predicate Waited(ready: bool, pods0: map<string, string>, svcs0: map<string, string>,
                         pods: map<string, string>, svcs: map<string, string>, processes: seq<Process>, n: nat)
    requires n <= |processes|
  {
    var waited := if ready then pods == pods0 && svcs == svcs0
                  else forall k :: k in svcs <==> k in svcs0 || NamedByAny(processes, n, k);
    waited
  }

  lemma OneNamed(p: Process)
    ensures forall k :: NamedByAny([p], 1, k) <==> NamedBy(p.services, |p.services|, k)
  {
    assert [p][0] == p;
  }

  lemma OneMoreProcess(ready: bool, pods0: map<string, string>, svcs0: map<string, string>, elems0: map<string, NetElem>,
                       pods1: map<string, string>, svcs1: map<string, string>, elems1: map<string, NetElem>,
                       pods: map<string, string>, svcs: map<string, string>, elems: map<string, NetElem>,
                       processes: seq<Process>, i: nat)
    requires i < |processes| && Grown(pods0, svcs0, elems0, pods1, svcs1, elems1, ProcessNames(processes[..i]))
    requires Waited(ready, pods0, svcs0, pods1, svcs1, processes, i)
    requires Grown(pods1, svcs1, elems1, pods, svcs, elems, {processes[i].name})
    requires Waited(ready, pods1, svcs1, pods, svcs, [processes[i]], 1)
    ensures Grown(pods0, svcs0, elems0, pods, svcs, elems, ProcessNames(processes[..i + 1]))
    ensures Waited(ready, pods0, svcs0, pods, svcs, processes, i + 1)
  {
    GrownMore(pods0, svcs0, elems0, pods1, svcs1, elems1, ProcessNames(processes[..i]), pods, svcs, elems, processes[i].name);
    NamesMore(processes, i);
    if !ready {
      OneNamed(processes[i]);
      AwaitsMore(svcs0, svcs1, svcs, processes, i);
    }
  }

  function ProcessNames(processes: seq<Process>): set<string> {
    set p | p in processes :: p.name
  }

  lemma NamesMore(processes: seq<Process>, i: nat)
    requires i < |processes|
    ensures ProcessNames(processes[..i]) + {processes[i].name} == ProcessNames(processes[..i + 1])
  {
    assert processes[..i + 1] == processes[..i] + [processes[i]];
  }

  lemma NamesAll(processes: seq<Process>)
    ensures ProcessNames(processes[..0]) == {} && ProcessNames(processes[..|processes|]) == ProcessNames(processes)
  {
    assert processes[..|processes|] == processes;
  }
}
