/** The manager: it runs the algorithm and hands every update to the callback of its user. */
module NetCharManager {
  import opened SegmentAlgorithm
  import opened FlowRouting
  import opened ScenarioTables
  import opened NetCharAlgorithm
  import opened NetCharDelivery

  /** What the user of the callback holds: characteristics by destination and source. */
  type Received = map<(string, string), NetChar>

  function Held(r: Received, dst: string, src: string): NetChar {
    if (dst, src) in r then r[(dst, src)] else NO_NETCHAR
  }

  /** The callback, once for each update of a list. */
  method Deliver(list: seq<FlowNetChar>, received: Received, ghost who: seq<Flow>) returns (received': Received)
    requires |list| == |who| && forall k :: 0 <= k < |who| ==> list[k] == UpdateOf(who[k])
    requires forall i, j :: 0 <= i < j < |who| ==> (who[i].dst, who[i].src) != (who[j].dst, who[j].src)
    ensures forall k :: 0 <= k < |who| ==> Held(received', who[k].dst, who[k].src) == who[k].applied
    ensures forall d, s :: (forall k :: 0 <= k < |who| ==> (who[k].dst, who[k].src) != (d, s)) ==>
      Held(received', d, s) == Held(received, d, s)
    ensures forall p :: p in received' ==> p in received || exists k :: 0 <= k < |who| && p == (who[k].dst, who[k].src)
    ensures list == [] ==> received' == received
  {
    received' := received;
    for i := 0 to |list|
      invariant i == 0 ==> received' == received
      invariant forall k :: 0 <= k < i ==> Held(received', who[k].dst, who[k].src) == who[k].applied
      invariant forall d, s :: (forall k :: 0 <= k < i ==> (who[k].dst, who[k].src) != (d, s)) ==>
        Held(received', d, s) == Held(received, d, s)
      invariant forall p :: p in received' ==> p in received || exists k :: 0 <= k < i && p == (who[k].dst, who[k].src)
    {
      var u := list[i];
      received' := received'[(u.dst, u.src) := u.netChar];
    }
  }

  class Manager {
    const algo: Algorithm
    var isStarted: bool
    /** What the callback told its user last, for each pair of ends. */
    var received: Received

    constructor (algo: Algorithm)
      requires algo.Valid() && algo.flowSet == {} && algo.segmentSet == {}
      ensures this.algo == algo && !isStarted && Valid() && UpToDate()
    {
      this.algo := algo;
      isStarted, received := false, map[];
    }

    /** Whatever is applied to a flow was told to the user. */
    ghost predicate Told()
      reads this`received, algo`flowSet, algo.flowSet`applied
    {
      forall f :: f in algo.flowSet && f.applied != NO_NETCHAR ==> Held(received, f.dst, f.src) == f.applied
    }

    /** The user holds the applied characteristics of every flow, and nothing else. */
    ghost predicate UpToDate()
      reads this`received, algo`flowSet, algo.flowSet`applied
    {
      && (forall f :: f in algo.flowSet ==> Held(received, f.dst, f.src) == f.applied)
      && (forall d, s :: (d, s) in received ==> exists f :: f in algo.flowSet && f.dst == d && f.src == s)
    }

    ghost predicate Valid()
      reads this, algo, algo.flowSet`applied, algo.flowSet`demand, algo.segmentSet`flows
    {
      algo.Valid() && algo.FlowsOnce() && algo.Settled() && Told()
    }

    method Start()
      requires Valid()
      modifies this`isStarted
      ensures Valid() && isStarted && (old(UpToDate()) ==> UpToDate())
    {
      isStarted := true;
    }

    method Stop()
      requires Valid()
      modifies this`isStarted
      ensures Valid() && !isStarted && (old(UpToDate()) ==> UpToDate())
    {
      isStarted := false;
    }

    /** The updates of one tick. */
    method Tick(measured: map<string, real>) returns (list: seq<FlowNetChar>, ghost who: seq<Flow>)
      requires algo.Valid() && algo.FlowsOnce() && algo.Settled()
      modifies algo.flowSet`demand, algo.flowSet`applied, algo.segmentSet`fairShare, algo.flowSet`planned,
               algo.flowSet`maxPlanned, algo.flowSet`computedLatency, algo.flowSet`computedJitter,
               algo.flowSet`computedPacketLoss
      ensures algo.Settled()
      ensures Distinct(who) && forall f :: f in who <==> f in algo.flowSet && f.applied != old(f.applied)
      ensures |list| == |who| && forall k :: 0 <= k < |who| ==> list[k] == UpdateOf(who[k])
    {
      ghost var view, order;
      list, who, view, order := algo.CalculateNetChar(measured);
    }

    /** One tick of the manager. */
    method UpdateNetChars(measured: map<string, real>) returns (completed: bool)
      requires Valid()
      modifies this`received, algo.flowSet`demand, algo.flowSet`applied, algo.segmentSet`fairShare,
               algo.flowSet`planned, algo.flowSet`maxPlanned, algo.flowSet`computedLatency,
               algo.flowSet`computedJitter, algo.flowSet`computedPacketLoss
      ensures Valid() && (old(UpToDate()) ==> UpToDate())
      ensures completed <==> exists f :: f in algo.flowSet && f.applied != old(f.applied)
      ensures !completed ==> received == old(received)
    {
      var list;
      ghost var who;
      list, who := Tick(measured);
      if list != [] { assert who[0] in who; }
      Receive(list, who);
      completed := list != [];
    }

    /** Hands a list of updates to the callback. */
    method Receive(list: seq<FlowNetChar>, ghost who: seq<Flow>)
      requires algo.FlowsKeyed() && Distinct(who) && forall f :: f in who ==> f in algo.flowSet
      requires |list| == |who| && forall k :: 0 <= k < |who| ==> list[k] == UpdateOf(who[k])
      modifies this`received
      ensures forall f :: f in who ==> Held(received, f.dst, f.src) == f.applied
      ensures forall f :: f in algo.flowSet && f !in who ==>
        Held(received, f.dst, f.src) == Held(old(received), f.dst, f.src)
      ensures forall d, s :: (d, s) in received ==>
        (d, s) in old(received) || exists f :: f in algo.flowSet && f.dst == d && f.src == s
      ensures list == [] ==> received == old(received)
    {
      EndsDistinct(who);
      received := Deliver(list, received, who);
      forall f | f in algo.flowSet && f !in who
        ensures Held(received, f.dst, f.src) == Held(old(received), f.dst, f.src)
      {
        forall k | 0 <= k < |who| ensures (who[k].dst, who[k].src) != (f.dst, f.src) {
          assert who[k] in who;
        }
      }
      forall d, s | (d, s) in received && (d, s) !in old(received)
        ensures exists f :: f in algo.flowSet && f.dst == d && f.src == s
      {
        var k :| 0 <= k < |who| && (d, s) == (who[k].dst, who[k].src);
        assert who[k] in who;
      }
    }

    /** Where there is no flow, an empty copy is up to date and no other. */
    lemma HoldsNothing()
      ensures algo.flowSet == {} ==> (UpToDate() <==> received == map[])
    {
      if received != map[] {
        var p :| p in received;
        assert (p.0, p.1) in received;
      }
    }

    lemma EndsDistinct(who: seq<Flow>)
      requires algo.FlowsKeyed() && Distinct(who) && forall f :: f in who ==> f in algo.flowSet
      ensures forall i, j :: 0 <= i < j < |who| ==> (who[i].dst, who[i].src) != (who[j].dst, who[j].src)
    {
      forall i, j | 0 <= i < j < |who| ensures (who[i].dst, who[i].src) != (who[j].dst, who[j].src) {
        assert who[i] in who && who[j] in who && who[i] != who[j];
      }
    }

    /** The applied characteristics are those before, and of new flows there are none yet. */
    twostate predicate AppliedKept()
      reads this, algo, algo.flowSet
    {
      forall f :: f in algo.flowSet ==> f.applied == if f in old(algo.flowSet) then old(f.applied) else NO_NETCHAR
    }

    /** Routes the flows again for a new or changed scenario. An empty scenario drops every flow and tells
        the user nothing: its copy stays, and is up to date only if it is empty. */
    method Reroute(scenario: string, elems: seq<NetElem>, chars: CharTable) returns (ghost pairs: seq<(nat, nat)>)
      requires Valid() && WellNamed(scenario, elems)
      modifies algo`flowMap, algo`flowSet, algo`segmentMap, algo`segmentSet, algo`table,
               algo.flowSet`demand, algo.flowSet`distribution, algo.flowSet`path
      ensures Valid() && fresh(algo.segmentSet) && fresh(algo.flowSet - old(algo.flowSet)) && AppliedKept()
      ensures scenario == "" ==> fresh(algo.flowSet)
      ensures scenario != "" ==> old(algo.flowSet) <= algo.flowSet
      ensures scenario == "" && |elems| == 0 ==> algo.flowSet == {}
      ensures old(UpToDate()) && (scenario == "" ==> received == map[]) ==> UpToDate()
      ensures Rows(elems, pairs, |elems|, 0)
      ensures algo.Routed(RoutesOf(PathsOf(scenario), elems, pairs), BlueprintsOf(algo.tuning, chars))
      ensures algo.Populated(if scenario == "" then map[] else old(algo.Standings()), RoutesOf(PathsOf(scenario), elems, pairs))
    {
      ghost var routes;
      pairs, routes := algo.ProcessScenario(scenario, elems, chars);
      if |pairs| == 0 { assert routes == []; }
      algo.NoFlows();
      ScenarioIncidence(scenario, elems, pairs);
      RoutedFlowsOnce(algo, routes, BlueprintsOf(algo.tuning, chars));
    }

    /** A tick leaves what is routed as it is. */
    method TickOnRoutes(measured: map<string, real>, ghost routes: seq<Route>, ghost plan: Hop -> Blueprint)
      returns (completed: bool)
      requires Valid() && algo.Routed(routes, plan)
      modifies this`received, algo.flowSet`demand, algo.flowSet`applied, algo.segmentSet`fairShare,
               algo.flowSet`planned, algo.flowSet`maxPlanned, algo.flowSet`computedLatency,
               algo.flowSet`computedJitter, algo.flowSet`computedPacketLoss
      ensures Valid() && (old(UpToDate()) ==> UpToDate()) && algo.Routed(routes, plan)
      ensures completed <==> exists f :: f in algo.flowSet && f.applied != old(f.applied)
      ensures !completed ==> received == old(received)
    {
      completed := UpdateNetChars(measured);
    }

    /** A new or changed scenario: the flows are routed again, and a tick follows. */
    method ProcessActiveScenarioUpdate(scenario: string, elems: seq<NetElem>, chars: CharTable,
                                       measured: map<string, real>)
      returns (completed: bool, ghost pairs: seq<(nat, nat)>)
      requires Valid() && WellNamed(scenario, elems)
      modifies this`received, algo, algo.flowSet, algo.segmentSet`fairShare
      ensures Valid()
      ensures isStarted ==> Rows(elems, pairs, |elems|, 0)
      ensures isStarted ==> algo.Routed(RoutesOf(PathsOf(scenario), elems, pairs), BlueprintsOf(algo.tuning, chars))
      ensures completed <==> isStarted && !AppliedKept()
      ensures !isStarted ==> algo.flowSet == old(algo.flowSet) && received == old(received)
      ensures old(UpToDate()) && (isStarted && scenario == "" ==> old(received) == map[]) ==> UpToDate()
      ensures isStarted && scenario == "" && |elems| == 0 ==> (UpToDate() <==> old(received) == map[])
    {
      completed, pairs := false, [];
      if isStarted {
        pairs := Reroute(scenario, elems, chars);
        completed := TickOnRoutes(measured, RoutesOf(PathsOf(scenario), elems, pairs), BlueprintsOf(algo.tuning, chars));
        HoldsNothing();
      }
    }
  }
}
