/** Handover: the point of access selected for a UE, and the refresh of one UE or of all of them. */
module Handover {

  /** What is known of a point of access from where a UE is. */
  datatype PoaInfo = PoaInfo(distance: real, subType: string, inRange: bool)

  type Infos = map<string, PoaInfo>

  function GetPoaTypePriority(poaType: string): int {
    if poaType == "POA" then 1
    else if poaType == "POA-CELL" then 2
    else if poaType == "POA-CELL-5G" then 3
    else if poaType == "POA-WIFI" then 4
    else 0
  }

  function ComparePoaTypes(a: string, b: string): (c: int)
    ensures c > 0 <==> GetPoaTypePriority(a) > GetPoaTypePriority(b)
    ensures c < 0 <==> GetPoaTypePriority(b) > GetPoaTypePriority(a)
  {
    if GetPoaTypePriority(a) == GetPoaTypePriority(b) then 0
    else if GetPoaTypePriority(a) < GetPoaTypePriority(b) then -1
    else 1
  }

  /** WiFi before 5G cells, cells and the others of the types known, and these before every other type, all alike. */
  lemma TypesRanked(a: string, b: string)
    ensures ComparePoaTypes("POA-WIFI", "POA-CELL-5G") > 0
    ensures ComparePoaTypes("POA-CELL-5G", "POA-CELL") > 0
    ensures ComparePoaTypes("POA-CELL", "POA") > 0
    ensures a !in {"POA", "POA-CELL", "POA-CELL-5G", "POA-WIFI"} ==> ComparePoaTypes("POA", a) > 0
    ensures a !in {"POA", "POA-CELL", "POA-CELL-5G", "POA-WIFI"} && b !in {"POA", "POA-CELL", "POA-CELL-5G", "POA-WIFI"}
            ==> ComparePoaTypes(a, b) == 0
  {
  }

  // ----- What may be selected

  /** The list names the points of access in range, each once. */
  ghost predicate ListsInRange(infos: Infos, inRange: seq<string>) {
    && (forall p :: p in inRange <==> p in infos && infos[p].inRange)
    && (forall i, j :: 0 <= i < j < |inRange| ==> inRange[i] != inRange[j])
  }

  /** One of the set, and none of the set is closer. */
  ghost predicate Nearest(infos: Infos, among: set<string>, p: string) {
    p in among && p in infos && forall q :: q in among && q in infos ==> infos[p].distance <= infos[q].distance
  }

  /** The points of access of a priority above that of a type. */
  function Above(infos: Infos, poaType: string): set<string> {
    set p | p in infos && GetPoaTypePriority(infos[p].subType) > GetPoaTypePriority(poaType)
  }

  predicate CurrentInRange(current: string, infos: Infos) {
    current in infos && infos[current].inRange
  }

  /** The nearest of a starting point and of those that may replace it, which must be strictly closer. */
  ghost predicate Replaces(infos: Infos, start: string, others: set<string>, p: string) {
    Nearest(infos, {start} + others, p) && (Nearest(infos, {start} + others, start) ==> p == start)
  }

  /** What may be selected, without an order: with several in range and the current one out of range,
      some point of access counts whatever its type, and the others if their type is recognised. */
  ghost predicate Possible(current: string, inRange: seq<string>, infos: Infos, p: string) {
    if infos == map[] then p == ""
    else if |inRange| == 0 then
      if current in infos then p == current else Nearest(infos, infos.Keys, p)
    else if |inRange| == 1 then p == inRange[0]
    else if CurrentInRange(current, infos) then
      Replaces(infos, current, Above(infos, infos[current].subType), p)
    else exists first :: first in infos && Nearest(infos, {first} + Above(infos, ""), p)
  }

  // ----- The selection in a given order of the map

  /** An order in which the map can be visited: all points of access, each once. */
  ghost predicate IsOrder(infos: Infos, order: seq<string>) {
    && (forall p :: p in order <==> p in infos)
    && (forall i, j :: 0 <= i < j < |order| ==> order[i] != order[j])
  }

  predicate Known(infos: Infos, order: seq<string>) {
    "" !in infos && forall p :: p in order ==> p in infos
  }

  function NearestInOrder(infos: Infos, order: seq<string>): (r: string)
    requires Known(infos, order)
    ensures if order == [] then r == "" else r in infos
  {
    if order == [] then ""
    else
      var n := |order| - 1;
      var selected := NearestInOrder(infos, order[..n]);
      if selected == "" || infos[order[n]].distance < infos[selected].distance then order[n] else selected
  }

  function MoreLocalizedInOrder(infos: Infos, start: string, currentType: string, order: seq<string>): (r: string)
    requires Known(infos, order) && (start != "" ==> start in infos)
    ensures if start == "" && order == [] then r == "" else r in infos
  {
    if order == [] then start
    else
      var n := |order| - 1;
      var selected := MoreLocalizedInOrder(infos, start, currentType, order[..n]);
      if selected == "" || (ComparePoaTypes(infos[order[n]].subType, currentType) > 0
                            && infos[order[n]].distance < infos[selected].distance)
      then order[n] else selected
  }

  function SelectInOrder(current: string, inRange: seq<string>, infos: Infos, order: seq<string>): string
    requires Known(infos, order)
  {
    if |inRange| == 0 then
      if current in infos then current else NearestInOrder(infos, order)
    else if |inRange| == 1 then inRange[0]
    else if CurrentInRange(current, infos) then MoreLocalizedInOrder(infos, current, infos[current].subType, order)
    else MoreLocalizedInOrder(infos, "", "", order)
  }

  /** Some order of the map leads to the selection. */
  ghost predicate Reached(current: string, inRange: seq<string>, infos: Infos, p: string)
    requires "" !in infos
  {
    exists order :: IsOrder(infos, order) && SelectInOrder(current, inRange, infos, order) == p
  }

  method SelectPoa(current: string, inRange: seq<string>, infos: Infos) returns (selected: string)
    requires "" !in infos && ListsInRange(infos, inRange)
    ensures Reached(current, inRange, infos, selected)
    ensures Possible(current, inRange, infos, selected)
    ensures selected != "" ==> selected in infos
  {
    selected := "";
    ghost var order := SomeOrder(infos, []);
    if |inRange| == 0 {
      if current in infos {
        selected := current;
      } else {
        selected, order := NearestOfAll(infos);
      }
    } else if |inRange| == 1 {
      selected := inRange[0];
    } else {
      var currentType := "";
      if current in infos && infos[current].inRange {
        currentType := infos[current].subType;
        selected := current;
      }
      selected, order := MoreLocalized(selected, currentType, infos);
    }
    assert IsOrder(infos, order) && SelectInOrder(current, inRange, infos, order) == selected;
    InOrderPossible(current, inRange, infos, order);
  }

  /** The nearest of all, in the order the map happens to be visited in. */
  method NearestOfAll(infos: Infos) returns (selected: string, ghost order: seq<string>)
    requires "" !in infos
    ensures IsOrder(infos, order) && selected == NearestInOrder(infos, order)
  {
    selected, order := "", [];
    var rest := infos.Keys;
    while rest != {}
      invariant Visited(infos, order, rest)
      invariant selected == NearestInOrder(infos, order)
      decreases rest
    {
      var poa :| poa in rest;
      VisitedMore(infos, order, rest, poa);
      rest, order := rest - {poa}, order + [poa];
      if selected == "" || infos[poa].distance < infos[selected].distance {
        selected := poa;
      }
    }
  }

  /** Starting from the one selected so far, if any, those of a priority above the given type are looked
      at, in the order the map happens to be visited in. */
  method MoreLocalized(start: string, currentType: string, infos: Infos) returns (selected: string, ghost order: seq<string>)
    requires "" !in infos && (start != "" ==> start in infos)
    ensures IsOrder(infos, order) && selected == MoreLocalizedInOrder(infos, start, currentType, order)
  {
    selected, order := start, [];
    var rest := infos.Keys;
    while rest != {}
      invariant Visited(infos, order, rest)
      invariant selected == MoreLocalizedInOrder(infos, start, currentType, order)
      decreases rest
    {
      var poa :| poa in rest;
      VisitedMore(infos, order, rest, poa);
      rest, order := rest - {poa}, order + [poa];
      if selected == "" || (ComparePoaTypes(infos[poa].subType, currentType) > 0 && infos[poa].distance < infos[selected].distance) {
        selected := poa;
      }
    }
  }

  /** The order lists what is visited, each once; the rest is not. */
  ghost predicate Visited(infos: Infos, order: seq<string>, rest: set<string>) {
    && Known(infos, order) && rest <= infos.Keys
    && (forall p :: p in order <==> p in infos && p !in rest)
    && (forall i, j :: 0 <= i < j < |order| ==> order[i] != order[j])
  }

  lemma VisitedMore(infos: Infos, order: seq<string>, rest: set<string>, poa: string)
    requires Visited(infos, order, rest) && poa in rest
    ensures Visited(infos, order + [poa], rest - {poa})
    ensures (order + [poa])[..|order|] == order
  {
  }

  /** Any points of access, each once, can be the first visited. */
  lemma {:induction false} SomeOrder(infos: Infos, first: seq<string>) returns (order: seq<string>)
    requires Known(infos, first) && forall i, j :: 0 <= i < j < |first| ==> first[i] != first[j]
    ensures IsOrder(infos, order) && first <= order
  {
    order := first;
    ghost var rest := set p | p in infos && p !in first;
    while rest != {}
      invariant Visited(infos, order, rest) && first <= order
      decreases rest
    {
      var poa :| poa in rest;
      VisitedMore(infos, order, rest, poa);
      rest, order := rest - {poa}, order + [poa];
    }
  }

  // ----- What the orders lead to

  /** Those of an order with a priority above that of a type. */
  function AboveIn(infos: Infos, poaType: string, order: seq<string>): set<string> {
    set p | p in order && p in Above(infos, poaType)
  }

  function Members(order: seq<string>): set<string> {
    set p | p in order
  }

  lemma {:induction false} NearestInOrderMeans(infos: Infos, order: seq<string>)
    requires Known(infos, order) && order != []
    ensures Nearest(infos, Members(order), NearestInOrder(infos, order))
  {
    var n := |order| - 1;
    MembersMore(order);
    if n > 0 {
      NearestInOrderMeans(infos, order[..n]);
      NearestMore(infos, Members(order[..n]), NearestInOrder(infos, order[..n]), order[n]);
    } else {
      assert NearestInOrder(infos, order[..0]) == "" && Members(order[..0]) == {};
    }
  }

  lemma MembersMore(order: seq<string>)
    requires order != []
    ensures Members(order) == Members(order[..|order| - 1]) + {order[|order| - 1]}
  {
    assert order == order[..|order| - 1] + [order[|order| - 1]];
  }

  lemma NearestMore(infos: Infos, among: set<string>, p: string, q: string)
    requires Nearest(infos, among, p) && q in infos
    ensures Nearest(infos, among + {q}, if infos[q].distance < infos[p].distance then q else p)
  {
  }

  /** The loop ends with the start, or with the nearest of those that may replace it. */
  lemma {:induction false} MoreLocalizedMeans(infos: Infos, start: string, poaType: string, order: seq<string>)
    requires Known(infos, order) && start in infos
    ensures Replaces(infos, start, AboveIn(infos, poaType, order), MoreLocalizedInOrder(infos, start, poaType, order))
  {
    if order != [] {
      var n := |order| - 1;
      assert order == order[..n] + [order[n]];
      MoreLocalizedMeans(infos, start, poaType, order[..n]);
      var selected := MoreLocalizedInOrder(infos, start, poaType, order[..n]);
      var before, after := {start} + AboveIn(infos, poaType, order[..n]), {start} + AboveIn(infos, poaType, order);
      assert forall q :: q in after ==> q in before || (q == order[n] && q in Above(infos, poaType));
      assert forall q :: q in before ==> q in after;
    }
  }

  /** Without a start the loop starts from the one visited first. */
  lemma {:induction false} FirstIsStart(infos: Infos, poaType: string, order: seq<string>)
    requires Known(infos, order) && order != []
    ensures MoreLocalizedInOrder(infos, "", poaType, order) == MoreLocalizedInOrder(infos, order[0], poaType, order[1..])
  {
    var n := |order| - 1;
    if n > 0 {
      FirstIsStart(infos, poaType, order[..n]);
      assert order[..n][1..] == order[1..][..n - 1];
    } else {
      assert MoreLocalizedInOrder(infos, "", poaType, order[..0]) == "";
    }
  }

  lemma AllAbove(infos: Infos, poaType: string, order: seq<string>)
    requires IsOrder(infos, order)
    ensures AboveIn(infos, poaType, order) == Above(infos, poaType)
  {
  }

  lemma FreshInOrder(infos: Infos, order: seq<string>)
    requires "" !in infos && IsOrder(infos, order) && order != []
    ensures Replaces(infos, order[0], Above(infos, ""), MoreLocalizedInOrder(infos, "", "", order))
  {
    FirstIsStart(infos, "", order);
    MoreLocalizedMeans(infos, order[0], "", order[1..]);
    AllAbove(infos, "", order);
    FirstAndRest(infos, "", order);
  }

  lemma FirstAndRest(infos: Infos, poaType: string, order: seq<string>)
    requires order != []
    ensures {order[0]} + AboveIn(infos, poaType, order[1..]) == {order[0]} + AboveIn(infos, poaType, order)
  {
    assert order == [order[0]] + order[1..];
  }

  lemma OrderIsEmpty(infos: Infos, order: seq<string>)
    requires IsOrder(infos, order)
    ensures order == [] <==> infos == map[]
  {
    if order == [] {
      assert forall p :: p !in infos;
    } else {
      assert order[0] in infos;
    }
  }

  /** Whatever the order, the selection is one of those that are possible. */
  lemma InOrderPossible(current: string, inRange: seq<string>, infos: Infos, order: seq<string>)
    requires "" !in infos && ListsInRange(infos, inRange) && IsOrder(infos, order)
    ensures Possible(current, inRange, infos, SelectInOrder(current, inRange, infos, order))
    ensures var p := SelectInOrder(current, inRange, infos, order); p != "" ==> p in infos
  {
    OrderIsEmpty(infos, order);
    if |inRange| > 0 {
      assert inRange[0] in infos;
    }
    if |inRange| == 0 {
      if current !in infos && infos != map[] {
        NearestInOrderMeans(infos, order);
        assert Members(order) == infos.Keys;
      }
    } else if |inRange| > 1 {
      if CurrentInRange(current, infos) {
        MoreLocalizedMeans(infos, current, infos[current].subType, order);
        AllAbove(infos, infos[current].subType, order);
      } else {
        FreshInOrder(infos, order);
        assert order[0] in infos;
      }
    }
  }

  /** Each of the nearest is the first to be visited in some order. */
  lemma {:induction false} FirstNearestStays(infos: Infos, order: seq<string>)
    requires Known(infos, order) && order != [] && Nearest(infos, infos.Keys, order[0])
    ensures NearestInOrder(infos, order) == order[0]
  {
    var n := |order| - 1;
    if n > 0 {
      FirstNearestStays(infos, order[..n]);
    } else {
      assert NearestInOrder(infos, order[..0]) == "";
    }
  }

  /** What replaces the start, visited first, is not replaced again. */
  lemma {:induction false} FirstAboveStays(infos: Infos, start: string, poaType: string, order: seq<string>)
    requires Known(infos, order) && start in infos && order != []
    requires Replaces(infos, start, Above(infos, poaType), order[0])
    ensures MoreLocalizedInOrder(infos, start, poaType, order) == order[0]
  {
    var n := |order| - 1;
    if n > 0 {
      FirstAboveStays(infos, start, poaType, order[..n]);
    } else {
      assert MoreLocalizedInOrder(infos, start, poaType, order[..0]) == start;
      if order[0] != start { assert !Nearest(infos, {start} + Above(infos, poaType), start); }
    }
  }

  /** A fresh selection that is possible is reached when it is visited right after the one that counts. */
  lemma FreshReached(infos: Infos, first: string, p: string) returns (order: seq<string>)
    requires "" !in infos && first in infos && Nearest(infos, {first} + Above(infos, ""), p)
    ensures IsOrder(infos, order) && MoreLocalizedInOrder(infos, "", "", order) == p
  {
    var among := {first} + Above(infos, "");
    if p == first || Nearest(infos, among, first) {
      order := SomeOrder(infos, [p]);
      assert order[0] == p && Nearest(infos, {p} + Above(infos, ""), p);
      FreshInOrder(infos, order);
    } else {
      order := SomeOrder(infos, [first, p]);
      assert order[0] == first && order[1..][0] == p;
      FirstIsStart(infos, "", order);
      FirstAboveStays(infos, first, "", order[1..]);
    }
  }

  /** The selections possible are exactly those that some order of the map leads to. */
  lemma PossibleIffReached(current: string, inRange: seq<string>, infos: Infos, p: string)
    requires "" !in infos && ListsInRange(infos, inRange)
    ensures Possible(current, inRange, infos, p) <==> Reached(current, inRange, infos, p)
  {
    if Reached(current, inRange, infos, p) {
      var order :| IsOrder(infos, order) && SelectInOrder(current, inRange, infos, order) == p;
      InOrderPossible(current, inRange, infos, order);
    }
    if Possible(current, inRange, infos, p) {
      var order := ReachingOrder(current, inRange, infos, p);
    }
  }

  lemma ReachingOrder(current: string, inRange: seq<string>, infos: Infos, p: string) returns (order: seq<string>)
    requires "" !in infos && ListsInRange(infos, inRange) && Possible(current, inRange, infos, p)
    ensures IsOrder(infos, order) && SelectInOrder(current, inRange, infos, order) == p
  {
    if |inRange| > 0 { assert inRange[0] in infos; }
    if infos == map[] || |inRange| == 1 || (|inRange| == 0 && current in infos) {
      order := SomeOrder(infos, []);
      OrderIsEmpty(infos, order);
    } else if |inRange| == 0 {
      order := SomeOrder(infos, [p]);
      FirstNearestStays(infos, order);
    } else if CurrentInRange(current, infos) {
      order := SomeOrder(infos, [p]);
      FirstAboveStays(infos, current, infos[current].subType, order);
    } else {
      var first :| first in infos && Nearest(infos, {first} + Above(infos, ""), p);
      order := FreshReached(infos, first, p);
    }
  }

  // ----- What the selection means

  ghost predicate DistinctDistances(infos: Infos) {
    forall p, q :: p in infos && q in infos && infos[p].distance == infos[q].distance ==> p == q
  }

  /** The nearest of all is of a recognised type. */
  ghost predicate NearestRecognised(infos: Infos) {
    exists p :: Nearest(infos, infos.Keys, p) && GetPoaTypePriority(infos[p].subType) > 0
  }

  lemma NearestUnique(infos: Infos, among: set<string>, p: string, q: string)
    requires DistinctDistances(infos) && Nearest(infos, among, p) && Nearest(infos, among, q)
    ensures p == q
  {
    assert infos[p].distance <= infos[q].distance <= infos[p].distance;
  }

  /** Where the current one is of no account and several are in range, the result is the nearest of all,
      if that is of a recognised type. */
  lemma FreshChoiceIsNearest(current: string, inRange: seq<string>, infos: Infos, p: string, nearest: string)
    requires ListsInRange(infos, inRange) && DistinctDistances(infos) && |inRange| > 1 && !CurrentInRange(current, infos)
    requires Nearest(infos, infos.Keys, nearest) && GetPoaTypePriority(infos[nearest].subType) > 0
    ensures Possible(current, inRange, infos, p) <==> p == nearest
  {
    assert inRange[0] in infos;
    assert nearest in Above(infos, "");
    assert Nearest(infos, {nearest} + Above(infos, ""), nearest);
    if Possible(current, inRange, infos, p) {
      var first :| first in infos && Nearest(infos, {first} + Above(infos, ""), p);
      NearestUnique(infos, {first} + Above(infos, ""), p, nearest);
    }
  }

  /** The one case in which the order of the map decides: several in range, the current one not among
      them, and the nearest of all of a type not recognised. */
  ghost predicate OrderDecides(current: string, inRange: seq<string>, infos: Infos) {
    |inRange| > 1 && !CurrentInRange(current, infos) && !NearestRecognised(infos)
  }

  lemma PossibleUnique(current: string, inRange: seq<string>, infos: Infos, p: string, q: string)
    requires ListsInRange(infos, inRange) && DistinctDistances(infos) && !OrderDecides(current, inRange, infos)
    requires Possible(current, inRange, infos, p) && Possible(current, inRange, infos, q)
    ensures p == q
  {
    if |inRange| == 0 {
      if infos != map[] && current !in infos { NearestUnique(infos, infos.Keys, p, q); }
    } else if |inRange| > 1 {
      assert inRange[0] in infos;
      if CurrentInRange(current, infos) {
        NearestUnique(infos, {current} + Above(infos, infos[current].subType), p, q);
      } else {
        var n :| Nearest(infos, infos.Keys, n) && GetPoaTypePriority(infos[n].subType) > 0;
        FreshChoiceIsNearest(current, inRange, infos, p, n);
        FreshChoiceIsNearest(current, inRange, infos, q, n);
      }
    }
  }

  lemma TwoPossible(current: string, inRange: seq<string>, infos: Infos) returns (p: string, q: string)
    requires ListsInRange(infos, inRange) && OrderDecides(current, inRange, infos)
    ensures p != q && Possible(current, inRange, infos, p) && Possible(current, inRange, infos, q)
  {
    assert inRange[0] in infos && inRange[1] in infos && inRange[0] != inRange[1];
    p := PickNearest(infos, infos.Keys);
    var other := if inRange[0] == p then inRange[1] else inRange[0];
    assert Nearest(infos, {p} + Above(infos, ""), p);
    q := PickNearest(infos, {other} + Above(infos, ""));
    assert p !in {other} + Above(infos, "");
  }

  /** With distinct distances two orders of the map lead to different selections in one case alone. */
  lemma OrderMattersExactly(current: string, inRange: seq<string>, infos: Infos)
    requires "" !in infos && ListsInRange(infos, inRange) && DistinctDistances(infos)
    ensures (exists one, two :: IsOrder(infos, one) && IsOrder(infos, two)
               && SelectInOrder(current, inRange, infos, one) != SelectInOrder(current, inRange, infos, two))
            <==> OrderDecides(current, inRange, infos)
  {
    if OrderDecides(current, inRange, infos) {
      var p, q := TwoPossible(current, inRange, infos);
      var one := ReachingOrder(current, inRange, infos, p);
      var two := ReachingOrder(current, inRange, infos, q);
    } else {
      forall one, two | IsOrder(infos, one) && IsOrder(infos, two)
        ensures SelectInOrder(current, inRange, infos, one) == SelectInOrder(current, inRange, infos, two)
      {
        InOrderPossible(current, inRange, infos, one);
        InOrderPossible(current, inRange, infos, two);
        PossibleUnique(current, inRange, infos, SelectInOrder(current, inRange, infos, one),
                       SelectInOrder(current, inRange, infos, two));
      }
    }
  }

  /** One UE, two points of access in range, the nearer of an unknown type: two orders, two selections. */
  lemma TwoOrders()
    ensures var infos := map["a" := PoaInfo(10.0, "", true), "b" := PoaInfo(20.0, "POA", true)];
      && ListsInRange(infos, ["a", "b"]) && DistinctDistances(infos)
      && IsOrder(infos, ["a", "b"]) && SelectInOrder("", ["a", "b"], infos, ["a", "b"]) == "a"
      && IsOrder(infos, ["b", "a"]) && SelectInOrder("", ["a", "b"], infos, ["b", "a"]) == "b"
  {
    var infos := map["a" := PoaInfo(10.0, "", true), "b" := PoaInfo(20.0, "POA", true)];
    assert MoreLocalizedInOrder(infos, "", "", ["a"]) == "a" by { assert ["a"][..0] == []; }
    assert MoreLocalizedInOrder(infos, "", "", ["b"]) == "b" by { assert ["b"][..0] == []; }
    assert ["a", "b"][..1] == ["a"] && ["b", "a"][..1] == ["b"];
    assert forall p :: p in ["a", "b"] <==> p == "a" || p == "b";
    assert forall p :: p in ["b", "a"] <==> p == "a" || p == "b";
  }

  /** A nearest of any set of known points of access. */
  lemma {:induction false} PickNearest(infos: Infos, among: set<string>) returns (p: string)
    requires among != {} && among <= infos.Keys
    ensures Nearest(infos, among, p)
    decreases among
  {
    var q :| q in among;
    if among == {q} {
      p := q;
    } else {
      var r := PickNearest(infos, among - {q});
      p := if infos[q].distance < infos[r].distance then q else r;
    }
  }

  /** With the current one and another in range, the result is the current one, or one that is strictly
      closer and of strictly higher priority. */
  lemma StaysOrImproves(current: string, inRange: seq<string>, infos: Infos, p: string)
    requires |inRange| > 1 && CurrentInRange(current, infos) && Possible(current, inRange, infos, p)
    ensures p == current || (p in infos && infos[p].distance < infos[current].distance
              && GetPoaTypePriority(infos[p].subType) > GetPoaTypePriority(infos[current].subType))
  {
    assert current in {current} + Above(infos, infos[current].subType);
  }

  /** Selecting again and again from one place settles with the second selection. */
  lemma SettlesWithinTwo(current: string, inRange: seq<string>, infos: Infos, p1: string, p2: string, p3: string)
    requires ListsInRange(infos, inRange) && DistinctDistances(infos) && NearestRecognised(infos)
    requires Possible(current, inRange, infos, p1) && Possible(p1, inRange, infos, p2) && Possible(p2, inRange, infos, p3)
    ensures p3 == p2
  {
    if |inRange| > 1 {
      var n :| Nearest(infos, infos.Keys, n) && GetPoaTypePriority(infos[n].subType) > 0;
      if CurrentInRange(p1, infos) {
        OneStep(current, inRange, infos, p1, p2, n);
        OneStep(p1, inRange, infos, p2, p3, n);
      } else {
        FreshChoiceIsNearest(p1, inRange, infos, p2, n);
        NearestStays(inRange, infos, n, p3);
      }
    }
  }

  /** A selected one that is in range is kept. */
  lemma OneStep(current: string, inRange: seq<string>, infos: Infos, p: string, q: string, n: string)
    requires ListsInRange(infos, inRange) && DistinctDistances(infos) && |inRange| > 1
    requires Nearest(infos, infos.Keys, n) && GetPoaTypePriority(infos[n].subType) > 0
    requires Possible(current, inRange, infos, p) && CurrentInRange(p, infos) && Possible(p, inRange, infos, q)
    ensures q == p
  {
    var higher := {p} + Above(infos, infos[p].subType);
    assert Nearest(infos, higher, q);
    if CurrentInRange(current, infos) {
      var among := {current} + Above(infos, infos[current].subType);
      assert Nearest(infos, among, p);
      assert forall r :: r in higher ==> r in among;
      assert Nearest(infos, higher, p);
    } else {
      FreshChoiceIsNearest(current, inRange, infos, p, n);
      assert Nearest(infos, higher, p);
    }
    NearestUnique(infos, higher, p, q);
  }

  lemma NearestStays(inRange: seq<string>, infos: Infos, n: string, q: string)
    requires ListsInRange(infos, inRange) && DistinctDistances(infos) && |inRange| > 1
    requires Nearest(infos, infos.Keys, n) && GetPoaTypePriority(infos[n].subType) > 0
    requires Possible(n, inRange, infos, q)
    ensures q == n
  {
    if CurrentInRange(n, infos) {
      var among := {n} + Above(infos, infos[n].subType);
      assert Nearest(infos, among, n);
      NearestUnique(infos, among, n, q);
    } else {
      FreshChoiceIsNearest(n, inRange, infos, q, n);
    }
  }

  /** The second selection can still differ from the first, and both can be out of range: the search
      among more localised types looks at all points of access. */
  lemma SelectsOutOfRangeTwice()
    ensures var infos := map["cur" := PoaInfo(30.0, "POA", true), "b" := PoaInfo(40.0, "POA", true),
        "x" := PoaInfo(20.0, "POA-WIFI", false), "y" := PoaInfo(10.0, "POA", false)];
      var inRange := ["cur", "b"];
      && ListsInRange(infos, inRange) && DistinctDistances(infos)
      && Possible("cur", inRange, infos, "x") && Possible("x", inRange, infos, "y")
      && !infos["x"].inRange && !infos["y"].inRange
  {
    var infos := map["cur" := PoaInfo(30.0, "POA", true), "b" := PoaInfo(40.0, "POA", true),
      "x" := PoaInfo(20.0, "POA-WIFI", false), "y" := PoaInfo(10.0, "POA", false)];
    var inRange := ["cur", "b"];
    assert inRange[0] == "cur" && inRange[1] == "b";
    assert Above(infos, "POA") == {"x"};
    assert Nearest(infos, {"cur"} + Above(infos, "POA"), "x");
    assert Nearest(infos, {"y"} + Above(infos, ""), "y");
  }

  // ----- When the selection is in range

  /** The type whose priority a selection must exceed to replace the one it starts from. */
  function TypeToBeat(current: string, infos: Infos): string {
    if CurrentInRange(current, infos) then infos[current].subType else ""
  }

  /** A point of access out of range that would do as well as the start: any, if there is no start. */
  predicate Contends(current: string, infos: Infos, q: string) {
    && q in infos && !infos[q].inRange
    && (CurrentInRange(current, infos) ==>
          q in Above(infos, infos[current].subType) && infos[q].distance < infos[current].distance)
  }

  /** Each one out of range that contends is farther than one in range of a priority that counts. */
  ghost predicate Outdone(current: string, infos: Infos) {
    forall q :: Contends(current, infos, q) ==> exists r :: Outdoes(current, infos, q, r)
  }

  predicate Outdoes(current: string, infos: Infos, q: string, r: string)
    requires q in infos
  {
    r in Above(infos, TypeToBeat(current, infos)) && infos[r].inRange && infos[r].distance < infos[q].distance
  }

  ghost predicate SelectsInRange(infos: Infos, p: string) {
    p in infos && infos[p].inRange
  }

  /** With several in range, each one out of range that contends and is not outdone can be selected,
      unless one out of range that is nearer can. */
  lemma ContenderPossible(current: string, inRange: seq<string>, infos: Infos, q: string)
    requires ListsInRange(infos, inRange) && |inRange| > 1
    requires Contends(current, infos, q) && forall r :: !Outdoes(current, infos, q, r)
    ensures exists p :: Possible(current, inRange, infos, p) && !SelectsInRange(infos, p)
  {
    var above := Above(infos, TypeToBeat(current, infos));
    var n := PickNearest(infos, above + {q});
    assert !Outdoes(current, infos, q, n);
    var p := if infos[n].distance < infos[q].distance then n else q;
    assert Nearest(infos, above + {q}, p) && !infos[p].inRange;
    if CurrentInRange(current, infos) {
      assert Replaces(infos, current, above, p);
    } else {
      assert Nearest(infos, {p} + above, p);
    }
    assert Possible(current, inRange, infos, p);
  }

  /** A selection out of range contends, and nothing outdoes it. */
  lemma PossibleNotOutdone(current: string, inRange: seq<string>, infos: Infos, p: string)
    requires ListsInRange(infos, inRange) && |inRange| > 1
    requires Possible(current, inRange, infos, p) && !SelectsInRange(infos, p)
    ensures Contends(current, infos, p) && forall r :: !Outdoes(current, infos, p, r)
  {
    assert inRange[0] in infos;
    if CurrentInRange(current, infos) {
      var among := {current} + Above(infos, infos[current].subType);
      assert Nearest(infos, among, p) && (Nearest(infos, among, current) ==> p == current);
      assert forall r :: r in Above(infos, infos[current].subType) ==> r in among;
    } else {
      var first :| first in infos && Nearest(infos, {first} + Above(infos, ""), p);
      assert forall r :: r in Above(infos, "") ==> r in {first} + Above(infos, "");
    }
  }

  lemma SomePossible(current: string, inRange: seq<string>, infos: Infos) returns (p: string)
    requires "" !in infos && ListsInRange(infos, inRange)
    ensures Possible(current, inRange, infos, p)
  {
    var order := SomeOrder(infos, []);
    InOrderPossible(current, inRange, infos, order);
    p := SelectInOrder(current, inRange, infos, order);
  }

  /** Every selection possible is in range if and only if one alone is in range, or several are and each
      one out of range that contends is outdone by one that is in range. */
  lemma InRangeExactly(current: string, inRange: seq<string>, infos: Infos)
    requires "" !in infos && ListsInRange(infos, inRange)
    ensures (forall p :: Possible(current, inRange, infos, p) ==> SelectsInRange(infos, p))
            <==> |inRange| == 1 || (|inRange| > 1 && Outdone(current, infos))
  {
    if |inRange| == 0 {
      var p := SomePossible(current, inRange, infos);
      assert SelectsInRange(infos, p) ==> p in inRange;
    } else if |inRange| == 1 {
      assert inRange[0] in infos && infos[inRange[0]].inRange;
    } else if Outdone(current, infos) {
      forall p | Possible(current, inRange, infos, p) && !SelectsInRange(infos, p)
        ensures Contends(current, infos, p) && forall r :: !Outdoes(current, infos, p, r)
      {
        PossibleNotOutdone(current, inRange, infos, p);
      }
    } else {
      var q :| Contends(current, infos, q) && !exists r :: Outdoes(current, infos, q, r);
      ContenderPossible(current, inRange, infos, q);
    }
  }

  /** The same of the loops: whatever the order of the map, what they select is in range. */
  lemma EveryOrderInRange(current: string, inRange: seq<string>, infos: Infos)
    requires "" !in infos && ListsInRange(infos, inRange)
    ensures (forall order :: IsOrder(infos, order) ==> SelectsInRange(infos, SelectInOrder(current, inRange, infos, order)))
            <==> |inRange| == 1 || (|inRange| > 1 && Outdone(current, infos))
  {
    InRangeExactly(current, inRange, infos);
    forall order | IsOrder(infos, order)
      ensures Possible(current, inRange, infos, SelectInOrder(current, inRange, infos, order))
    {
      InOrderPossible(current, inRange, infos, order);
    }
    if p :| Possible(current, inRange, infos, p) && !SelectsInRange(infos, p) {
      var order := ReachingOrder(current, inRange, infos, p);
    }
  }

  /** Where the order does not decide, the one selection is in range exactly then. */
  lemma SelectedInRangeExactly(current: string, inRange: seq<string>, infos: Infos, p: string)
    requires "" !in infos && ListsInRange(infos, inRange) && DistinctDistances(infos)
    requires !OrderDecides(current, inRange, infos) && Possible(current, inRange, infos, p)
    ensures SelectsInRange(infos, p) <==> |inRange| == 1 || (|inRange| > 1 && Outdone(current, infos))
  {
    InRangeExactly(current, inRange, infos);
    forall q | Possible(current, inRange, infos, q) ensures q == p {
      PossibleUnique(current, inRange, infos, p, q);
    }
  }

  /** With several in range and the current one not among them, where the nearest of all is of a recognised
      type, the selection is in range if and only if that nearest is. */
  lemma FreshInRangeExactly(current: string, inRange: seq<string>, infos: Infos, p: string, nearest: string)
    requires ListsInRange(infos, inRange) && DistinctDistances(infos) && |inRange| > 1 && !CurrentInRange(current, infos)
    requires Nearest(infos, infos.Keys, nearest) && GetPoaTypePriority(infos[nearest].subType) > 0
    requires Possible(current, inRange, infos, p)
    ensures SelectsInRange(infos, p) <==> infos[nearest].inRange
  {
    FreshChoiceIsNearest(current, inRange, infos, p, nearest);
  }

  // ----- The table rows

  /** A UE's row: the point of access it is on, how far that is, and those in range. */
  datatype UeRow = UeRow(poa: string, poaDistance: real, poaInRange: seq<string>)

  /** The geometry of the moment: how far a point of access is from a UE, and whether it reaches it. */
  datatype Geometry = Geometry(distance: (string, string) -> real, within: (string, string) -> bool)

  function InfoOf(g: Geometry, ue: string, poa: string, poaType: string): PoaInfo {
    PoaInfo(g.distance(ue, poa), poaType, g.within(ue, poa))
  }

  /** What is known of all points of access from where a UE is. */
  function InfosFrom(g: Geometry, poas: map<string, string>, ue: string): Infos {
    map p | p in poas :: InfoOf(g, ue, p, poas[p])
  }

  /** A refreshed row: one of the points of access the selection allows, its distance, and those in range. */
  ghost predicate Refreshed(infos: Infos, before: UeRow, after: UeRow) {
    && ListsInRange(infos, after.poaInRange)
    && Possible(before.poa, after.poaInRange, infos, after.poa)
    && after.poaDistance == if after.poa in infos then infos[after.poa].distance else 0.0
  }

  /** With distinct distances and the nearest of a recognised type, every refresh of a row agrees on
      the point of access, its distance and those in range. */
  lemma RefreshedAgree(infos: Infos, before: UeRow, a: UeRow, b: UeRow)
    requires DistinctDistances(infos) && (infos != map[] ==> NearestRecognised(infos))
    requires Refreshed(infos, before, a) && Refreshed(infos, before, b)
    ensures a.poa == b.poa && a.poaDistance == b.poaDistance && multiset(a.poaInRange) == multiset(b.poaInRange)
  {
    SameList(infos, a.poaInRange, b.poaInRange);
    PossibleForSameList(before.poa, a.poaInRange, b.poaInRange, infos, b.poa);
    if |a.poaInRange| > 0 { assert a.poaInRange[0] in infos; }
    PossibleUnique(before.poa, a.poaInRange, infos, a.poa, b.poa);
  }

  lemma PossibleForSameList(current: string, a: seq<string>, b: seq<string>, infos: Infos, p: string)
    requires ListsInRange(infos, a) && ListsInRange(infos, b) && |a| == |b|
    requires Possible(current, b, infos, p)
    ensures Possible(current, a, infos, p)
  {
    if |a| == 1 { assert b[0] in b && b[0] in a && a == [a[0]]; }
  }

  lemma SameList(infos: Infos, a: seq<string>, b: seq<string>)
    requires ListsInRange(infos, a) && ListsInRange(infos, b)
    ensures multiset(a) == multiset(b) && |a| == |b|
  {
    forall p ensures multiset(a)[p] == multiset(b)[p] {
      OnceEach(a, p);
      OnceEach(b, p);
    }
    assert multiset(a) == multiset(b);
    assert |multiset(a)| == |a|;
  }

  lemma {:induction false} OnceEach(s: seq<string>, p: string)
    requires forall i, j :: 0 <= i < j < |s| ==> s[i] != s[j]
    ensures multiset(s)[p] == if p in s then 1 else 0
  {
    if s != [] {
      var n := |s| - 1;
      assert s == s[..n] + [s[n]];
      OnceEach(s[..n], p);
    }
  }

  /** What a refreshed row says of where the UE is: the points of access that reach it and no others, each once, and
      how far the one selected is. With several in range and the one before among them, another is selected only
      if it is closer and of a type ranked above. */
  lemma RefreshedRow(g: Geometry, poas: map<string, string>, ue: string, before: UeRow, after: UeRow)
    requires "" !in poas && Refreshed(InfosFrom(g, poas, ue), before, after)
    ensures forall p :: p in after.poaInRange <==> p in poas && g.within(ue, p)
    ensures forall i, j :: 0 <= i < j < |after.poaInRange| ==> after.poaInRange[i] != after.poaInRange[j]
    ensures after.poa in poas || (poas == map[] && after.poa == "")
    ensures after.poaDistance == if after.poa in poas then g.distance(ue, after.poa) else 0.0
    ensures |after.poaInRange| > 1 && before.poa in after.poaInRange && after.poa != before.poa ==>
      && g.distance(ue, after.poa) < g.distance(ue, before.poa)
      && ComparePoaTypes(poas[after.poa], poas[before.poa]) > 0
  {
    var infos := InfosFrom(g, poas, ue);
    assert forall p :: p in infos <==> p in poas;
    if poas != map[] { SomeKey(poas); }
    assert infos == map[] <==> poas == map[] by { SomeKey(infos); SomeKey(poas); }
  }

  // ----- The refresh of the tables

  /** What is gathered for one UE while the rows of the query are scanned. */
  datatype UePoaInfo = UePoaInfo(infos: Infos, inRange: seq<string>, current: string)

  const NOTHING_KNOWN := UePoaInfo(map[], [], "")

  function Scanned(info: UePoaInfo, current: string, poa: string, poaInfo: PoaInfo): UePoaInfo {
    UePoaInfo(info.infos[poa := poaInfo], if poaInfo.inRange then info.inRange + [poa] else info.inRange, current)
  }

  /** What is known after the rows for some of the points of access, in whatever order. */
  ghost predicate Gathered(info: UePoaInfo, infos: Infos, seen: set<string>, current: string) {
    && info.infos.Keys == seen && seen <= infos.Keys
    && (forall p :: p in seen ==> info.infos[p] == infos[p])
    && ListsInRange(info.infos, info.inRange)
    && info.current == if seen == {} then "" else current
  }

  lemma ScannedGathers(info: UePoaInfo, infos: Infos, seen: set<string>, current: string, poa: string)
    requires Gathered(info, infos, seen, current) && poa in infos && poa !in seen
    ensures Gathered(Scanned(info, current, poa, infos[poa]), infos, seen + {poa}, current)
  {
  }

  /** With every row scanned the selection is one that the row before allows. */
  lemma GatheredAll(info: UePoaInfo, infos: Infos, before: UeRow, selected: string)
    requires Gathered(info, infos, infos.Keys, before.poa)
    requires Possible(info.current, info.inRange, info.infos, selected)
    ensures info.infos == infos
    ensures Refreshed(infos, before, UeRow(selected, if selected in infos then infos[selected].distance else 0.0, info.inRange))
  {
    assert info.infos == infos;
    if infos != map[] { SomeKey(infos); }
  }

  class Connector {
    var ues: map<string, UeRow>
    var poas: map<string, string>

    constructor ()
      ensures ues == map[] && poas == map[]
    {
      ues, poas := map[], map[];
    }

    /** One UE is refreshed; other rows stay, and so does the table if there is no such UE. */
    method RefreshUePoa(g: Geometry, name: string)
      requires "" !in poas
      modifies this`ues
      ensures ues.Keys == old(ues.Keys)
      ensures forall u :: u in old(ues) && u != name ==> ues[u] == old(ues)[u]
      ensures name in old(ues) ==> Refreshed(InfosFrom(g, poas, name), old(ues)[name], ues[name])
    {
      if name in ues {
        var info := ScanOne(g, name);
        UpdateUe(InfosFrom(g, poas, name), poas.Keys, name, info);
      } else {
        var selected := SelectPoa("", [], map[]);
      }
    }

    /** A point of access is selected from what was gathered for the UE, and its row is written. */
    method UpdateUe(ghost infos: Infos, ghost poaNames: set<string>, ue: string, info: UePoaInfo)
      requires "" !in poaNames && infos.Keys == poaNames && ue in ues && Gathered(info, infos, poaNames, ues[ue].poa)
      modifies this`ues
      ensures ues.Keys == old(ues.Keys)
      ensures forall u :: u in old(ues) && u != ue ==> ues[u] == old(ues)[u]
      ensures Refreshed(infos, old(ues)[ue], ues[ue])
    {
      var selected := SelectPoa(info.current, info.inRange, info.infos);
      var distance := 0.0;
      if selected != "" {
        distance := info.infos[selected].distance;
      }
      GatheredAll(info, infos, ues[ue], selected);
      ues := ues[ue := UeRow(selected, distance, info.inRange)];
    }

    /** The rows for one UE are scanned, in any order. */
    method ScanOne(g: Geometry, name: string) returns (info: UePoaInfo)
      requires name in ues
      ensures Gathered(info, InfosFrom(g, poas, name), poas.Keys, ues[name].poa)
    {
      info := NOTHING_KNOWN;
      var rest := poas.Keys;
      while rest != {}
        invariant rest <= poas.Keys
        invariant Gathered(info, InfosFrom(g, poas, name), poas.Keys - rest, ues[name].poa)
        decreases rest
      {
        var poa :| poa in rest;
        ScannedGathers(info, InfosFrom(g, poas, name), poas.Keys - rest, ues[name].poa, poa);
        assert poas.Keys - rest + {poa} == poas.Keys - (rest - {poa});
        rest := rest - {poa};
        info := Scanned(info, ues[name].poa, poa, InfoOf(g, name, poa, poas[poa]));
      }
      assert poas.Keys - rest == poas.Keys;
    }

    /** All UEs are refreshed, each as a refresh of that UE alone would do, also if there is no point of
        access at all. */
    method RefreshAllUePoa(g: Geometry)
      requires "" !in poas
      modifies this`ues
      ensures ues.Keys == old(ues.Keys)
      ensures forall u :: u in old(ues) ==> Refreshed(InfosFrom(g, poas, u), old(ues)[u], ues[u])
    {
      var infos := GatherAll(g);
      ghost var views := ViewsFrom(g, poas, ues);
      ViewsAre(g, poas, ues);
      UpdateAll(views, poas.Keys, infos);
    }

    method GatherAll(g: Geometry) returns (infos: map<string, UePoaInfo>)
      ensures infos.Keys == ues.Keys
      ensures forall u :: u in infos ==> Gathered(infos[u], InfosFrom(g, poas, u), poas.Keys, ues[u].poa)
    {
      infos := ScanAll(g);
      if |infos| == 0 {
        NothingGathered(g, ues, poas);
        infos := ListAll();
      }
    }

    /** Every UE with nothing known, for when there is no point of access. */
    method ListAll() returns (infos: map<string, UePoaInfo>)
      ensures infos.Keys == ues.Keys && forall u :: u in infos ==> infos[u] == NOTHING_KNOWN
    {
      infos := map[];
      var rest := ues.Keys;
      while rest != {}
        invariant rest <= ues.Keys && infos.Keys == ues.Keys - rest
        invariant forall u :: u in infos ==> infos[u] == NOTHING_KNOWN
        decreases rest
      {
        var ue :| ue in rest;
        rest := rest - {ue};
        infos := infos[ue := NOTHING_KNOWN];
      }
    }

    method UpdateAll(ghost views: map<string, Infos>, ghost poaNames: set<string>, infos: map<string, UePoaInfo>)
      requires "" !in poaNames && infos.Keys == ues.Keys == views.Keys
      requires forall u :: u in infos ==> views[u].Keys == poaNames
      requires forall u :: u in infos ==> Gathered(infos[u], views[u], poaNames, ues[u].poa)
      modifies this`ues
      ensures ues.Keys == old(ues.Keys)
      ensures forall u :: u in old(ues) ==> Refreshed(views[u], old(ues)[u], ues[u])
    {
      ghost var before := ues;
      var rest := infos.Keys;
      while rest != {}
        invariant rest <= infos.Keys == ues.Keys
        invariant forall u :: u in rest ==> ues[u] == before[u] && Gathered(infos[u], views[u], poaNames, before[u].poa)
        invariant AllRefreshed(views, before, ues, rest)
        decreases rest
      {
        var ue :| ue in rest;
        ghost var last := ues;
        UpdateUe(views[ue], poaNames, ue, infos[ue]);
        OneMoreRefreshed(views, before, last, ues, rest, ue);
        rest := rest - {ue};
      }
    }

    /** The rows for all UEs are scanned, in any order; a UE is known once it has a row. */
    method ScanAll(g: Geometry) returns (infos: map<string, UePoaInfo>)
      ensures infos.Keys == if poas == map[] then {} else ues.Keys
      ensures forall u :: u in infos ==> Gathered(infos[u], InfosFrom(g, poas, u), poas.Keys, ues[u].poa)
    {
      infos := map[];
      var rest := set u, p | u in ues && p in poas :: (u, p);
      while rest != {}
        invariant forall r :: r in rest ==> r.0 in ues && r.1 in poas
        invariant AllGathered(infos, g, ues, poas, rest)
        decreases rest
      {
        var row :| row in rest;
        var ue, poa := row.0, row.1;
        ScanStep(infos, g, ues, poas, rest, ue, poa);
        var info := if ue in infos then infos[ue] else NOTHING_KNOWN;
        infos := infos[ue := Scanned(info, ues[ue].poa, poa, InfoOf(g, ue, poa, poas[poa]))];
        rest := rest - {row};
      }
      assert forall u :: SeenFor(rest, poas, u) == poas.Keys;
      SomeKey(poas);
    }
  }

  /** What is gathered for all UEs once all rows but some are scanned. */
  ghost predicate AllGathered(infos: map<string, UePoaInfo>, g: Geometry, ues: map<string, UeRow>,
                              poas: map<string, string>,
                              rest: set<(string, string)>) {
    && (forall u :: u in infos <==> u in ues && SeenFor(rest, poas, u) != {})
    && (forall u :: u in infos ==> GatheredFor(infos, g, ues, poas, rest, u))
  }

  ghost predicate GatheredFor(infos: map<string, UePoaInfo>, g: Geometry, ues: map<string, UeRow>,
                              poas: map<string, string>,
                              rest: set<(string, string)>, u: string) {
    u in infos && u in ues && Gathered(infos[u], InfosFrom(g, poas, u), SeenFor(rest, poas, u), ues[u].poa)
  }

  lemma ScanStep(infos: map<string, UePoaInfo>, g: Geometry, ues: map<string, UeRow>, poas: map<string, string>,
                 rest: set<(string, string)>, ue: string, poa: string)
    requires AllGathered(infos, g, ues, poas, rest) && (ue, poa) in rest && ue in ues && poa in poas
    ensures var info := if ue in infos then infos[ue] else NOTHING_KNOWN;
      AllGathered(infos[ue := Scanned(info, ues[ue].poa, poa, InfoOf(g, ue, poa, poas[poa]))], g, ues, poas, rest - {(ue, poa)})
  {
    SeenMore(rest, poas, ue, poa);
    var info := if ue in infos then infos[ue] else NOTHING_KNOWN;
    var more := infos[ue := Scanned(info, ues[ue].poa, poa, InfoOf(g, ue, poa, poas[poa]))];
    forall u | u in more ensures GatheredFor(more, g, ues, poas, rest - {(ue, poa)}, u) {
      if u != ue {
        assert GatheredFor(infos, g, ues, poas, rest, u);
      } else {
        ScannedRow(infos, g, ues, poas, rest, ue, poa);
      }
    }
  }

  /** The UE whose row was scanned. */
  lemma ScannedRow(infos: map<string, UePoaInfo>, g: Geometry, ues: map<string, UeRow>, poas: map<string, string>,
                   rest: set<(string, string)>, ue: string, poa: string)
    requires AllGathered(infos, g, ues, poas, rest) && (ue, poa) in rest && ue in ues && poa in poas
    ensures var info := if ue in infos then infos[ue] else NOTHING_KNOWN;
      Gathered(Scanned(info, ues[ue].poa, poa, InfoOf(g, ue, poa, poas[poa])), InfosFrom(g, poas, ue),
               SeenFor(rest - {(ue, poa)}, poas, ue), ues[ue].poa)
  {
    SeenMore(rest, poas, ue, poa);
    if ue in infos { assert GatheredFor(infos, g, ues, poas, rest, ue); }
    var info := if ue in infos then infos[ue] else NOTHING_KNOWN;
    ScannedGathers(info, InfosFrom(g, poas, ue), SeenFor(rest, poas, ue), ues[ue].poa, poa);
  }

  /** The UEs that are not left over are refreshed. */
  ghost predicate AllRefreshed(views: map<string, Infos>, before: map<string, UeRow>, ues: map<string, UeRow>,
                               rest: set<string>) {
    forall u :: u in ues && u !in rest ==> u in views && u in before && Refreshed(views[u], before[u], ues[u])
  }

  lemma OneMoreRefreshed(views: map<string, Infos>, before: map<string, UeRow>, last: map<string, UeRow>,
                         ues: map<string, UeRow>,
                         rest: set<string>, ue: string)
    requires AllRefreshed(views, before, last, rest) && last.Keys == ues.Keys
    requires ue in views && ue in before && ue in ues && Refreshed(views[ue], before[ue], ues[ue])
    requires forall u :: u in last && u != ue ==> ues[u] == last[u]
    ensures AllRefreshed(views, before, ues, rest - {ue})
  {
    forall u | u in ues && u !in rest - {ue} ensures u in views && u in before && Refreshed(views[u], before[u], ues[u]) {
      if u != ue { assert ues[u] == last[u]; }
    }
  }

  /** Where there is no point of access, knowing nothing of any UE is knowing all there is. */
  lemma NothingGathered(g: Geometry, ues: map<string, UeRow>, poas: map<string, string>)
    ensures poas == map[] ==> forall u :: u in ues ==> Gathered(NOTHING_KNOWN, InfosFrom(g, poas, u), {}, ues[u].poa)
  {
  }

  function ViewsFrom(g: Geometry, poas: map<string, string>, ues: map<string, UeRow>): map<string, Infos> {
    map u | u in ues :: InfosFrom(g, poas, u)
  }

  lemma ViewsAre(g: Geometry, poas: map<string, string>, ues: map<string, UeRow>)
    ensures forall u :: u in ues ==> ViewsFrom(g, poas, ues)[u] == InfosFrom(g, poas, u)
    ensures forall u :: u in ues ==> ViewsFrom(g, poas, ues)[u].Keys == poas.Keys
  {
  }

  lemma SomeKey<T>(m: map<string, T>)
    ensures m.Keys == {} <==> m == map[]
  {
    assert (forall k :: k !in m) ==> m == map[];
  }

  /** The points of access whose row for a UE is scanned already. */
  function SeenFor(rest: set<(string, string)>, poas: map<string, string>, ue: string): set<string> {
    set p | p in poas && (ue, p) !in rest
  }

  lemma SeenMore(rest: set<(string, string)>, poas: map<string, string>, ue: string, poa: string)
    requires (ue, poa) in rest && poa in poas
    ensures poa !in SeenFor(rest, poas, ue)
    ensures SeenFor(rest - {(ue, poa)}, poas, ue) == SeenFor(rest, poas, ue) + {poa}
    ensures forall u :: u != ue ==> SeenFor(rest - {(ue, poa)}, poas, u) == SeenFor(rest, poas, u)
  {
  }
}
