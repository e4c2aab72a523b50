# AdvantEDGE platform core: verified models

A Dafny model of the parts of the platform that shape traffic between the processes of an emulated
edge network, and proofs of what they keep. Each group of files follows one component.

| files | component |
|---|---|
| `SegmentShares`, `SegmentConservation`, `SegmentOvercommit`, `SegmentCollisions`, `SegmentAllLists`, `SegmentScratch`, `SegmentPlans`, `SegmentAlgorithm` | sharing the capacity of one directional segment among its flows: the arithmetic as functions on exact reals, what it conserves and exactly when, what it plans for each flow in closed form, and the passes that update flows in place |
| `FlowRouting`, `ScenarioTables`, `NetCharAlgorithm`, `NetCharLoss`, `NetCharDelivery`, `NetCharManager` | routing all ordered pairs of processes over segments, a tick over all segments in any order, and the delivery of what changed |
| `ScenarioTree`, `ScenarioIndex`, `ScenarioGraph`, `ScenarioEdits`, `ScenarioModel`, `ScenarioValidator` | the scenario tree, its name index, type index and network graph, its edits, and the upgrades of older scenarios |
| `ScenarioEnds` | reading the ends of flows and the characteristics of elements off the scenario model, and what unique names there give the routing |
| `Text`, `LbChains`, `LbReconciler`, `LbForwarding`, `LbSidecar` | reconciling the NAT chains of a pod with the stored load-balancing rules, and what the chains do with traffic |
| `TcCommands` | the sidecar's interfaces and filters, and the cache by which it skips commands |
| `TcEngine` | the engine's wait for addresses, its readiness and the numbering of filters |
| `TcDelivery` | from the figures of an update to the settings of an interface and the traffic sent through it |
| `Handover` | selecting the point of access of a UE |
| `Common` | what several components use |
| `ReplayManager`, `PingHistory` | replaying event files, and the ring of round-trip times |

Code that updates objects in place is modelled by classes and methods with loops, each proved against
a function or predicate on values; the main results are lemmas about these, or invariants every
method keeps. Loops over maps take the elements in any order. Rates, latencies and distances are
exact reals, so equality of rates, which the allocator uses as a tag, is exact. Kernel tables and
stores are maps. What comes from outside (measured rates, distances, random letters in chain names,
found addresses, the set of stored entries) is a parameter.

## What the code does that its comments do not say

- The allocator tells flows of its later categories by plans equal to the fair share or to the rate
  for inactive flows. A rate that falls on such a tag is served twice or not charged, and the segment
  then plans more than its capacity, on a family of lists for each case
  (`InactiveRateIsFairShareOvercommits`, `OntoInactiveRateOvercommits`, `OntoFairShareOvercommits`). On
  which settings that can happen at all is stated exactly (`KeepsWithinExactly`): with the default tuning
  for every number of active flows from 2 to 333 (`DefaultTuningKeepsWithin`).
- With no rate on a tag a segment can still plan more than its capacity: an idle flow listed last takes
  what the others leave, which is negative when each keeps a step above the fair share
  (`IdleLastOvercommits`). That can happen exactly when the fair share lies between the activity
  threshold and one step above it (`ConservedExactly`): with the default tuning, with 31 to 333 active
  flows (`DefaultTuningFits`).
- Flows that keep their allocation keep what was planned when there were fewer: where the residual step plans the
  others their fair share, a segment carries more than its capacity exactly if what is kept above the fair share
  is more than what limits leave below it (`WholeSegmentExactly`). Bounds are taken over only with a plan for
  another rate (`NextTick`).
- The names of points of access are compared before zones and domains are looked at, and only UE and fog nodes have
  one: a flow between two edge or cloud nodes crosses no zone, no domain and no link between domains, wherever in
  the scenario they are (`WiredCrossesNoZone`).
- The downlink limit of a process is read from its uplink field (go-packages/meep-net-char-mgr/algo-segment.go:217).
  A flow's limit is right only if the rates of its destination are equal or neither is below what its
  source may send (`LimitRightExactly`, `LimitedByUplink`).
- Packet losses are percentages but composed as fractions: two lossy segments that lose more than one
  percent lose less together than the first alone, and two percent after another loss is no loss
  (`LossInPercentExactly`). The result depends on the order in which the segment map is visited unless the
  lossy segments all lose the same (`LossSameExactly`).
- A colon in a process name can give two flows one name (`ColonNamesCollide`, `FlowNamesMeetExactly`).
- Moving a physical location that is no UE removes the first of its old location (`MovedFogLosesUe`).
- Moving an edge application does not parse the tree again, so the index is not that of the tree until
  the scenario is set again (`ProcMoveLeavesIndex`).
- The end of a scenario is reported to no one: what the callback told stays with its user, and a flow of
  the next scenario to which nothing is applied yet is not reported either, so the copy is up to date
  after the end exactly if it was empty (`ProcessActiveScenarioUpdate`).
- The upgrade to 1.5.0 overwrites the uplink rate of a zone without a downlink rate
  (`UplinkRateLost`), and a scenario without a version is marked current without an upgrade
  (`NoVersionNoUpgrade`).
- The selection of a point of access is described as one among those in range, but with several in range
  it looks at all, and with none it takes one out of range (`SelectsOutOfRangeTwice`). What is selected is
  in range exactly if one alone is, or several are and each one out of range that contends is farther than
  one in range of a type that counts (`InRangeExactly`).
- With Inits ignored, the second of two Inits in a row is sent (`SentExactly`), what follows an ignored
  Init is sent when the Init falls due (`WaitsMeans`), and the remaining times of the status are right
  throughout a round only if the first event is an ignored Init, or none is ignored and it is at time zero,
  and no later ignored Init makes anything early (`StatusRightThroughout`, `LaterInitIsNotTold`). In the
  wait between two rounds the status tells none left, unless the first event is later than what is taken
  off (`LoopWaitRight`).
- The standard deviation of the ping history is taken before the mean is set, so it is the root of the
  mean square, never below the mean, and right only if the mean is zero (`DeviationAboveMean`,
  `DeviationRightExactly`).
- Two rules whose service names differ in case alone are made again at every refresh
  (`CaseFoldedNamesCollide`, `QuietIffDistinct`). A refresh that fails after it made a chain does not
  flush connections, and the next one clears the flag before it looks at the rules: connections are then
  flushed only if it finds something else to make (`RefreshTwice`, `QuietAfterFailure`, `FlushLost`).
- An interface deleted and made again for the same shape gets no settings (`ReusedLeftBare`), and a
  stored loss of one digit is rendered tenfold (`LossRenderedExactly`): a loss from 0.01 to below 0.1 percent
  becomes one of 0.1 to 0.9 (`TcDelivery.LossOf`). A filter whose number is in use is not looked at again, so it goes on
  redirecting the addresses it was installed for when another source is stored under its number
  (`RefreshNetCharRules`).
- Stored rules for one address, port and protocol in one hook that name several instances send all their traffic
  to the first hung (`ForwardsExactly`).

## Model

| member | source | states |
|---|---|---|
| SegmentConservation.Category1Shape | go-packages/meep-net-char-mgr/algo-segment.go:694-729 | Category 1 plans each flow it reaches as stated and counts it out, and leaves the plans of the others and the count of those it passes on. |
| SegmentConservation.Category1Charge | go-packages/meep-net-char-mgr/algo-segment.go:694-729 | With no rate on a tag, category 1 charges exactly the plans of the active flows it serves against the unused capacity. |
| SegmentConservation.RoundFitsUnused | go-packages/meep-net-char-mgr/algo-segment.go:684-776 | When some flow is beyond the first category, the plans of the active evaluated flows fit in the capacity left by the flows that keep their allocation, unless the residual step reopens it. |
| SegmentConservation.Conservation | go-packages/meep-net-char-mgr/algo-segment.go:684-835 | On every segment the plans of the active re-evaluated flows add up to at most its configured throughput, over all three categories and the residual step, for non-negative allocations, no rate on a tag and no inactive flow in the later categories. |
| SegmentOvercommit.ConservedExactly | go-packages/meep-net-char-mgr/algo-segment.go:684-788 | With no rate on a tag, a segment with m active flows keeps within its throughput on all lists of flows if and only if m is 0 or its fair share is at most the activity threshold or at least the threshold plus a step. |
| SegmentOvercommit.IdleLastOvercommits | go-packages/meep-net-char-mgr/algo-segment.go:733-743 | On every segment, for every m, m flows within a step of the fair share and an idle one after them are planned m steps above their rates, more than the throughput, with no rate on a tag. |
| SegmentOvercommit.DefaultTuningFits | go-packages/meep-net-char-mgr/algo-segment.go:134-141 | With the default tuning and no rate on a tag every segment keeps within its throughput exactly with up to 30 or at least 334 active flows. |
| SegmentOvercommit.TwoAndAnIdleOvercommit | go-packages/meep-net-char-mgr/algo-segment.go:733-743 | Two flows at 4.5 and an idle one after them are planned 21 on a segment of 10. |
| SegmentConservation.OrderlyFromSettings | go-packages/meep-net-char-mgr/algo-segment.go:684-788 | No rate is on a tag and no inactive flow is left for the later categories when step plus activity threshold is at most the fair share, the inactive rate is not the fair share, and no measured rate plus step falls on the fair share or on the inactive rate. |
| SegmentConservation.FairWhenSaturated | go-packages/meep-net-char-mgr/algo-segment.go:684-788 | If every active flow measures at least the fair share T/N, each is planned exactly min(T/N, its own limit), whether or not the residual step fires. |
| SegmentConservation.FairPlansFit | go-packages/meep-net-char-mgr/algo-segment.go:823-835 | Plans that never exceed the fair share fit in the segment: the fair share times the active flows is its throughput. |
| SegmentScratch.PlannedRatesAreScratch | go-packages/meep-net-char-mgr/algo-segment.go:684-788 | For all inputs the planned rates do not depend on what the plan fields held before. |
| SegmentScratch.PlansAreScratch | go-packages/meep-net-char-mgr/algo-segment.go:684-788 | With orderly flows the same holds for the planned bounds: every plan field is written before it is read. |
| SegmentCollisions.InactiveRateIsFairShareOvercommits | go-packages/meep-net-char-mgr/algo-segment.go:694-760 | Wherever the rate for inactive flows is the fair share of m saturated flows, m at least 2, an idle flow before them is counted out twice, and the m flows share what is left for m - 1: more than the throughput. |
| SegmentCollisions.OntoInactiveRateOvercommits | go-packages/meep-net-char-mgr/algo-segment.go:694-729 | Wherever the step of an active flow lands on the rate for inactive flows it is not charged, and the saturated flows after it are planned the whole throughput on top. |
| SegmentCollisions.OntoFairShareOvercommits | go-packages/meep-net-char-mgr/algo-segment.go:694-748 | Flows measured one step below the fair share are counted out twice: with more of them than saturated flows, a flow in between is planned its step above the fair share and the throughput is exceeded by as much. |
| SegmentCollisions.DefaultTuningOvercommits | go-packages/meep-net-char-mgr/algo-segment.go:134-141 | With the default tuning, five saturated flows and an idle one on 1000 are planned 1212.5. |
| SegmentCollisions.StepOntoInactiveRateOvercommits | go-packages/meep-net-char-mgr/algo-segment.go:684-788 | With the default tuning, a flow at 170 and a saturated one are planned 1200 on 1000. |
| SegmentCollisions.StepOntoFairShareOvercommits | go-packages/meep-net-char-mgr/algo-segment.go:684-788 | A flow a step below the fair share and one closer to it are planned 205 on 200. |
| SegmentAllLists.KeepsWithinExactly | go-packages/meep-net-char-mgr/algo-segment.go:684-788 | Rates on tags included, a segment with m active flows keeps within its throughput on all lists of flows without negative rates if and only if m is 0, or the fair share is within the activity threshold and m is 1 or it is not the rate for inactive flows or less than a step, or it is the threshold and a step (or more, if m is 1) and not the rate for inactive flows. |
| SegmentAllLists.DefaultTuningKeepsWithin | go-packages/meep-net-char-mgr/algo-segment.go:134-141 | With the default tuning that is so exactly with no active flow, with one on a throughput other than 6, and with at least 334. |
| SegmentPlans.UnusedIsWithoutKept | go-packages/meep-net-char-mgr/algo-segment.go:805-820 | What is shared is the throughput without the allocations of the active flows that are measured within their bounds and below the fair share and were not rerouted. |
| SegmentPlans.EvaluatedExactly | go-packages/meep-net-char-mgr/algo-segment.go:805-820 | What is evaluated are exactly the other flows, as often as they are listed. |
| SegmentPlans.ActiveCountIs | go-packages/meep-net-char-mgr/algo-segment.go:823-835 | The active flows counted are the number of places in the list with a rate at the activity threshold or above. |
| SegmentPlans.PlansExactly | go-packages/meep-net-char-mgr/algo-segment.go:684-776 | With orderly flows the three passes plan each flow, bounds and all, by its kind alone: a step above its rate within its limit, the rate for inactive flows, all that is left within its limit if it is the last of the second kind and there is no third, or an even share of what is left within its limit; old plan fields do not matter. |
| SegmentPlans.ResidualExactly | go-packages/meep-net-char-mgr/algo-segment.go:777-788 | If a unit or more is left each active flow is planned the fair share within its limit, to be planned anew at once, and the others stay. |
| SegmentPlans.WholeSegmentFits | go-packages/meep-net-char-mgr/algo-segment.go:684-835 | Where some flow is beyond the first category and the residual step does not fire, what the active flows are planned and what others keep fit in the throughput. |
| SegmentPlans.WholeSegmentExactly | go-packages/meep-net-char-mgr/algo-segment.go:684-835 | What active flows are planned and what others keep fit in the throughput if and only if, where the residual step fires, flows keep no more above the fair share than limits leave below it, and where it does not, some flow is beyond the first category or the steps of the active flows fit in what is not kept. |
| SegmentPlans.KeptIsTakenOff | go-packages/meep-net-char-mgr/algo-segment.go:805-820 | With a flow that keeps 33 on 100, one that wants 60 is planned 67. |
| SegmentPlans.SettingsMean | go-packages/meep-net-char-mgr/algo-segment.go:576-604 | The settings of a segment are the percentages of its throughput that the tuning names, the rate for inactive flows at least its floor; or the rates named. |
| SegmentAlgorithm.UpdateMaxFairShareBwPerFlow | go-packages/meep-net-char-mgr/algo-segment.go:823-835 | The loop leaves the fair share of the segment's active flows in the segment and changes nothing else. |
| SegmentAlgorithm.NeedToReevaluate | go-packages/meep-net-char-mgr/algo-segment.go:805-820 | The loop returns exactly the flows that are not settled (outside their bounds, at the fair share or above, or rerouted), and the throughput without the allocations that settled active flows keep. |
| SegmentAlgorithm.PickedInOrder | go-packages/meep-net-char-mgr/algo-segment.go:805-820 | The flows returned are in the order of the segment's list. |
| SegmentAlgorithm.RecalculateSegmentBw | go-packages/meep-net-char-mgr/algo-segment.go:684-802 | The passes over the listed flows leave the plans of the specification in the plan fields, and lower each flow's held plan to it. |
| SegmentAlgorithm.OfferedRates | go-packages/meep-net-char-mgr/algo-segment.go:684-802 | What a segment offers a flow is one rate, whatever the plan fields held before the evaluation. |
| SegmentAlgorithm.EvaluateSegment | go-packages/meep-net-char-mgr/algo-segment.go:640-650 | Evaluating a segment leaves every flow it carries with the lower of what it held and what the segment offers, with orderly flows bounds and all, and other flows as they were. |
| NetCharAlgorithm.LeastOfferUnique | go-packages/meep-net-char-mgr/algo-segment.go:631-670 | The least of a flow's offers is one rate, so any two visiting orders end with the same rate. |
| NetCharAlgorithm.LossDependsOnOrder | go-packages/meep-net-char-mgr/algo-segment.go:656-663 | The packet loss composed over two lossy segments is the same in both orders if and only if the two lose the same. |
| NetCharLoss.LossSameExactly | go-packages/meep-net-char-mgr/algo-segment.go:656-663 | Over any number of segments a flow's packet loss is the same in all orders of visiting them if and only if it loses the same on all segments on which it loses packets. |
| NetCharLoss.LossInPercentExactly | go-packages/meep-net-char-mgr/algo-segment.go:656-663 | The composed loss of two lossy segments is the percentage lost on both exactly on one curve; it is less than the first alone, none, or negative exactly if the second loses more than one, two, or more than two percent. |
| NetCharAlgorithm.Algorithm.ReCalculateNetChar | go-packages/meep-net-char-mgr/algo-segment.go:631-681 | For every order of the segment map each flow ends with the least of the rates its segments offer on what they saw (MAX_THROUGHPUT if none), where all flows are orderly with the whole plan of one that offers it, and with the sums of their latencies and jitters. |
| NetCharAlgorithm.Algorithm.CalculateNetChar | go-packages/meep-net-char-mgr/algo-segment.go:255-316 | A tick keeps allocated equal to applied throughput and non-negative, takes over each plan for another rate with its bounds, applies the computed latency, jitter, loss and distribution, and returns exactly the flows whose applied characteristics changed, once each, with their new values. |
| NetCharAlgorithm.ApplyComputed | go-packages/meep-net-char-mgr/algo-segment.go:274-314 | Applying what was computed for one flow takes over a new plan that is not negative, with its bounds, and the computed figures, and tells whether anything changed. |
| FlowRouting.SegmentNameInjective | go-packages/meep-net-char-mgr/algo-segment.go:559-562 | Segment names are injective in (element, direction). |
| FlowRouting.FlowNameInjective | go-packages/meep-net-char-mgr/algo-segment.go:235-237 | Flow names tell both ends when the source names have no colon. |
| FlowRouting.FlowNamesMeetExactly | go-packages/meep-net-char-mgr/algo-segment.go:235-237 | Two pairs of ends share a flow name exactly if they are equal, or one source goes on with a colon after the other and the destinations make up for it. |
| FlowRouting.ColonNamesCollide | go-packages/meep-net-char-mgr/algo-segment.go:235-237 | With a colon in a name two different pairs of ends share a flow name. |
| FlowRouting.PathSymmetry | go-packages/meep-net-char-mgr/algo-segment.go:457-556 | For all ends and every early exit the way back crosses the same elements with uplink and downlink exchanged. |
| FlowRouting.PathCount | go-packages/meep-net-char-mgr/algo-segment.go:457-556 | How often a path crosses an element in a direction: once for the end of that side, its physical location, and each level above that the ends do not share before they part. |
| FlowRouting.CrossedExactly | go-packages/meep-net-char-mgr/algo-segment.go:457-556 | What is crossed on a side is exactly the end, its physical location and, if these differ, the point of access of a UE; if those differ too, the zone; then the domain; then the scenario; no zone or domain above a DC. |
| FlowRouting.InterDomainExactly | go-packages/meep-net-char-mgr/algo-segment.go:544-553 | Both links of the scenario are crossed if and only if physical locations, points of access, zones and domains all differ. |
| FlowRouting.RoundTripSumsEqual | go-packages/meep-net-char-mgr/algo-segment.go:652-655 | A figure that elements have in both directions adds up to the same total there and back. |
| FlowRouting.IncidenceExactly | go-packages/meep-net-char-mgr/algo-segment.go:457-615 | Every flow is listed on every segment exactly as often as its own path crosses it, if and only if different routes have different flow names. |
| FlowRouting.LoopsListPairs | go-packages/meep-net-char-mgr/algo-segment.go:232-243 | The two loops route every ordered pair of distinct ends once, in order, with the path of that pair. |
| FlowRouting.LoopsCount | go-packages/meep-net-char-mgr/algo-segment.go:232-243 | With n processes there are n(n-1) flows to route. |
| FlowRouting.HopsOnce | go-packages/meep-net-char-mgr/algo-segment.go:457-556 | No path crosses a segment twice when an end's elements have distinct names. |
| NetCharAlgorithm.Algorithm.CreateSegment | go-packages/meep-net-char-mgr/algo-segment.go:559-615 | A segment is created on first use, with the settings its element and direction ask for, and lists the flow once more; other segments stay. |
| NetCharAlgorithm.Algorithm.CreatePath | go-packages/meep-net-char-mgr/algo-segment.go:457-556 | A flow gets the segments of its crossings in order and is listed on each. |
| NetCharAlgorithm.Algorithm.PopulateFlow | go-packages/meep-net-char-mgr/algo-segment.go:403-454 | A flow is created on first use with nothing applied, gets the lower of its ends' limits and a new path, and is marked if the path changed; other flows stay. |
| NetCharAlgorithm.Algorithm.ProcessScenario | go-packages/meep-net-char-mgr/algo-segment.go:156-252 | After routing there is a flow for each of the n(n-1) ordered pairs, on a path through segments of the new segment map, with the limit of its ends, the distribution of its source and its reroute mark; the segment lists are exactly those of the routes, and allocations of flows that stay are kept. |
| ScenarioEnds.ReadEnds | go-packages/meep-net-char-mgr/algo-segment.go:171-225 | There is one end for each element of a process type, each once, with the names and types of its ancestors and its rates read through the index; it fails exactly if something of a process type is no process. |
| ScenarioEnds.EndsWellNamed | go-packages/meep-net-char-mgr/algo-segment.go:171-225 | Unique names without colons in the scenario tree give ends with distinct names whose own and ancestors' names are distinct. |
| ScenarioEnds.TreeToSegments | go-packages/meep-net-char-mgr/algo-segment.go:171-252 | On a scenario tree with unique names without colons every flow is listed once on each segment of its path and nowhere else. |
| ScenarioEnds.SegmentsFromTree | go-packages/meep-net-char-mgr/algo-segment.go:559-600 | After routing a scenario tree each segment on a flow's path is built from the characteristics of the element crossed, which is an end of the flow or above it in the tree. |
| ScenarioEnds.LevelCrossedExactly | go-packages/meep-net-char-mgr/algo-segment.go:457-556 | In a scenario tree with unique names an element above an end is crossed on that side, in either direction, if and only if its level is crossed by the places and types of the two ends. |
| ScenarioEnds.WiredCrossesNoZone | go-packages/meep-net-char-mgr/algo-segment.go:491-556 | A flow between two ends without a point of access crosses the ends and their physical locations and nothing else. |
| ScenarioEnds.FlowsFromTree | go-packages/meep-net-char-mgr/algo-segment.go:403-454 | After routing a scenario tree the flow between two processes bears both names, has the distribution of the deployment and the lower of the two uplink rates as limit, where zero reads as 1000. |
| ScenarioEnds.WrittenIsRead | go-packages/meep-net-char-mgr/algo-segment.go:837-875 | After an update of an element the index is that of the new tree, what is read for the element is what was written, and what is read for every other name is as before. |
| ScenarioEnds.UpdateReachesSegments | go-packages/meep-net-char-mgr/algo-segment.go:559-604 | A segment made after an update has the latency, jitter, loss, rate and settings of what was written if its element is the one updated, and is as before if not. |
| ScenarioEnds.ReadsOwn | go-packages/meep-net-char-mgr/algo-segment.go:837-875 | What is read for the name of an element of the tree are its own characteristics, with default rates for rates of zero. |
| ScenarioEnds.LimitRightExactly | go-packages/meep-net-char-mgr/algo-segment.go:213-225 | A flow is limited by what its source may send and its destination may receive if and only if the destination has one rate both ways or neither is below what the source may send. |
| ScenarioEnds.LimitedByUplink | go-packages/meep-net-char-mgr/algo-segment.go:213-225 | A flow to a process that sends at 10 and receives at 50 is limited to 10. |
| NetCharDelivery.ScenarioIncidence | go-packages/meep-net-char-mgr/algo-segment.go:156-252 | With distinct names without colons, a segment is on a flow's path exactly when it lists the flow, once. |
| NetCharDelivery.FlowsStand | go-packages/meep-net-char-mgr/algo-segment.go:403-454 | Each flow of such a scenario has the lower of its ends' rates as limit and its source's distribution, and is marked as rerouted exactly if its crossings are not those of its path before. |
| NetCharDelivery.MergedPlansFit | go-packages/meep-net-char-mgr/algo-segment.go:790-801 | After the plans of all segments are merged, the rates that the active re-evaluated flows ended with fit in every segment at once. |
| NetCharDelivery.MergedSegmentFits | go-packages/meep-net-char-mgr/algo-segment.go:790-801 | With orderly flows they fit together with what settled active flows keep, wherever the exact condition for the segment's own plans holds. |
| NetCharDelivery.PlanIsMade | go-packages/meep-net-char-mgr/algo-segment.go:684-802 | Where the flows of all segments are orderly the plan a flow ends a tick with is one of the closed forms on one of its segments, bounds and all, or no segment plans it. |
| NetCharDelivery.NextTick | go-packages/meep-net-char-mgr/algo-segment.go:274-288 | On the next tick a flow keeps its allocation exactly if it is measured below the fair share and within the bounds of the plan taken over last, and was not rerouted; the bounds of a plan for the rate already allotted are not taken over. |
| NetCharDelivery.CarriersAreOnPath | go-packages/meep-net-char-mgr/algo-segment.go:606-612 | A segment carries a routed flow exactly when it is on the flow's path. |
| NetCharDelivery.FiguresAlongPath | go-packages/meep-net-char-mgr/algo-segment.go:652-655 | After a tick a flow's latency and jitter are the sums over the elements of its own path. |
| NetCharDelivery.BothWaysAlike | go-packages/meep-net-char-mgr/algo-segment.go:652-655 | After a tick the two directions between any two processes have the same latency and jitter. |
| NetCharManager.Manager.UpdateNetChars | go-packages/meep-net-char-mgr/net-char-mgr.go:281-296 | Whatever is applied to a flow was told to the user, after any run; delivering the list of a tick keeps an up-to-date copy up to date, and the completion callback is called exactly when something changed. |
| NetCharManager.Manager.ProcessActiveScenarioUpdate | go-packages/meep-net-char-mgr/net-char-mgr.go:259-278 | If the manager is started, the scenario is routed and a tick follows, completing exactly when something applied has changed; what is applied was told, and the user's copy stays up to date while there is a scenario; at its end it is up to date if and only if it was empty. If the manager is stopped, nothing changes. |
| ScenarioModel.NodeMap.AddNode | go-packages/meep-model/nodeMap.go:56-62 | A node enters the name index and the row of its type, which is made on first use. |
| ScenarioModel.NetworkGraph.AddNode | go-packages/meep-model/networkGraph.go:33-43 | A vertex is added with arcs both ways of one weight, 0 or 1, unless it has no parent. |
| ScenarioModel.Model.ParseElement | go-packages/meep-model/model.go:653-700 | Parsing an element and what is below it adds exactly their nodes to both indexes, each parent before its children. |
| ScenarioModel.Model.ParseNodes | go-packages/meep-model/model.go:640-704 | Parsing rebuilds both indexes as those of the present tree. |
| ScenarioIndex.NodesAreThePlaces | go-packages/meep-model/model.go:653-700 | The nodes parsed are exactly those of the tree's places, each with its own parent and ancestors. |
| ScenarioIndex.AncestorsStep | go-packages/meep-model/nodeContext.go:30-40 | The context grows by one name at each level, as far as the physical location. |
| ScenarioIndex.IndexAgrees | go-packages/meep-model/model.go:640-704 | With unique names the name index holds exactly the tree's elements, each with its place, parent and ancestors, and each type row is the part of the name index of that type. |
| ScenarioGraph.ArcsAreTreeEdges | go-packages/meep-model/model.go:653-686 | The arcs are exactly the tree's edges below the deployment, both ways and of equal weight, 0 above COMMON zones and DEFAULT locations and 1 elsewhere. |
| ScenarioGraph.ConnectedIsSameDomain | go-packages/meep-model/networkGraph.go:33-43 | Two nodes are connected if and only if they lie in the same domain. |
| ScenarioModel.Model.SetScenario | go-packages/meep-model/model.go:186-219 | A scenario that is set is parsed: the indexes are those of its tree. |
| ScenarioModel.ValidatePL | go-packages/meep-model/validator.go:281-302 | A UE to add needs a name and the UE type, gets its name as default id and default rates for directions without one. |
| ScenarioModel.PreparedMeans | go-packages/meep-model/validator.go:281-302 | What is added keeps name, type and other data, has its name as id if none is given and 1000 for a missing rate, and no processes. |
| ScenarioModel.Model.AddScenarioNode | go-packages/meep-model/model.go:387-450 | Adding a UE succeeds exactly under the stated conditions and appends it without processes to its parent; on an error nothing changes; indexes stay those of the tree and names unique. |
| ScenarioModel.Model.RemoveScenarioNode | go-packages/meep-model/model.go:453-520 | Removing a UE without processes cuts out the first sibling of its name, by overwriting it with the last; errors change nothing; indexes stay those of the tree and names unique. |
| ScenarioModel.Model.UpdateNetChar | go-packages/meep-model/model.go:305-384 | An update rewrites the characteristics of one element, or fails for a name that is not there or a type it is not meant for and changes nothing; without parsing again the indexes are those of the new tree. |
| ScenarioModel.NetCharWritten | go-packages/meep-model/model.go:305-384 | The element updated has the characteristics given, its name, type, other data and children as before; every place is there as before, with its head and data, and unless it is above the element, with its whole subtree. |
| ScenarioModel.KindsOfUpdates | go-packages/meep-model/model.go:322-360 | The types an update is meant for. |
| ScenarioModel.Model.MoveNode | go-packages/meep-model/model.go:267-294 | A move appends a physical location or an edge application to the destination and cuts the old location at the index searched for; errors change nothing; indexes stay those of the tree but after an edge application moved; names stay unique when a UE or an edge application moves. |
| ScenarioModel.Model.MoveProc | go-packages/meep-model/model.go:779-838 | A process of no mobility group is moved, only its node's parent is updated, and the index is that of the tree afterwards if and only if it was there already. |
| ScenarioModel.ProcMoveConserves | go-packages/meep-model/model.go:812-834 | Moving a process conserves all names, appends it to its new location and cuts exactly it out of the old one. |
| ScenarioModel.ProcMoveLeavesIndex | go-packages/meep-model/model.go:812-834 | After an edge application moved elsewhere, the index of the tree has it at another place than the index that was kept. |
| ScenarioModel.MoveConservesIffUeOrFirst | go-packages/meep-model/model.go:754-776 | A move to another location conserves all physical locations with their processes, and keeps names unique, if and only if it moves a UE or the first element of its location. |
| ScenarioModel.MovedFogLosesUe | go-packages/meep-model/model.go:758-769 | Moving a fog node that is second in its location leaves it there, adds it at the destination and drops the UE before it. |
| ScenarioModel.MovedUeIndexed | go-packages/meep-model/model.go:754-776 | After a UE moved, the index has it under the destination with the destination's ancestors, and it is the same element. |
| ScenarioEdits.MoveConservesExactly | go-packages/meep-model/model.go:754-769 | A move conserves the physical locations exactly when the element cut out equals the one appended. |
| ScenarioEdits.MoveTouchesOnlyTwo | go-packages/meep-model/model.go:754-769 | A move changes the two network locations, each as said; what is above either keeps its name, type, data and number of children, and what is beside both is the same. |
| ScenarioEdits.MoveKeepsBelowNew | go-packages/meep-model/model.go:754-769 | Everything below the destination stays as it was. |
| ScenarioEdits.MoveKeepsBelowOld | go-packages/meep-model/model.go:754-769 | Below the old location every subtree but the one cut out stays, the last one at its index. |
| ScenarioModel.RemoveUndoesAdd | go-packages/meep-model/model.go:432-505 | Removing a UE right after adding it restores the exact tree. |
| ScenarioEdits.NodesKeepData | go-packages/meep-model/model.go:305-384 | Rewriting what an element carries beside name, type and children changes no node of the index. |
| ScenarioModel.Model.GetNodeNames | go-packages/meep-model/model.go:535-555 | The names listed for some types are exactly those of the elements of these types, each once; all for "" or "ANY". |
| ScenarioValidator.OlderVersions | go-packages/meep-model/validator.go:70-93 | The accepted versions that are not current are exactly 1.3.x from 1.3.0, 1.4.x, and pre-releases of 1.5.0. |
| ScenarioValidator.UpgradeScenarioTo140 | go-packages/meep-model/validator.go:119-154 | The loops upgrade every zone and nothing else. |
| ScenarioValidator.UpgradeScenarioTo150 | go-packages/meep-model/validator.go:156-279 | The loops upgrade every element, each as its level asks for. |
| ScenarioValidator.UpgradeKeepsEffect | go-packages/meep-model/validator.go:119-279 | Upgrading from before 1.4.0 keeps places, names, types and, at each element, the latency, jitter, loss and both rates in force; at a zone that had a NetChar exactly when its rates survive. Older fields are zero after. |
| ScenarioValidator.To150KeepsEffect | go-packages/meep-model/validator.go:156-279 | The upgrade from 1.4.x keeps what is in force at an element; at a zone if and only if its rates survive. |
| ScenarioValidator.FirstUpgradeGivesNetChar | go-packages/meep-model/validator.go:119-154 | The upgrade to 1.4.0 clears the older fields of zones and gives a zone without a NetChar one without a distribution; nothing else changes. |
| ScenarioValidator.UpgradeGivesNetChar | go-packages/meep-model/validator.go:156-279 | After the upgrade to 1.5.0 every element has a NetChar: its own, or one of its older fields with the distribution Normal for the deployment and none elsewhere, and no older fields outside zones. |
| ScenarioValidator.ValidatedMeans | go-packages/meep-model/validator.go:60-117 | Validation fails exactly for unreadable or incompatible versions and leaves 1.5.0 alone; every element of an updated scenario has a NetChar, and what is in force there as before, at a zone exactly when its rates survive; the older fields of zones are cleared exactly before 1.4.0. |
| ScenarioValidator.UplinkRateLost | go-packages/meep-model/validator.go:204-211 | A zone with an uplink rate and no downlink rate has its uplink rate overwritten. |
| ScenarioValidator.To140Again | go-packages/meep-model/validator.go:119-154 | The upgrade to 1.4.0 is idempotent. |
| ScenarioValidator.To150Again | go-packages/meep-model/validator.go:156-279 | The upgrade to 1.5.0 is idempotent. |
| ScenarioValidator.ValidateScenario | go-packages/meep-model/validator.go:60-117 | Validation gives the result and status of the specification: error, valid and unchanged, or updated. |
| ScenarioValidator.UpdatedIsThenValid | go-packages/meep-model/validator.go:89-116 | What a validation has updated, the next returns unchanged as valid. |
| ScenarioValidator.NoVersionNoUpgrade | go-packages/meep-model/validator.go:70-74 | A scenario without a version is marked current without being upgraded. |
| LbChains.SvcName | go-apps/meep-tc-sidecar/main.go:53-62 | A service chain's name tells its kind by the prefix it contains, contains the MEEP prefix, and is no top or built-in chain. |
| LbChains.FreshTable | go-apps/meep-tc-sidecar/main.go:320-335 | A table without chains of the platform satisfies the invariant that refreshes keep. |
| LbChains.InstallKeeps | go-apps/meep-tc-sidecar/main.go:512-533 | A fresh chain with one rule, hung from its parent, keeps the table's invariant. |
| LbChains.UninstallKeeps | go-apps/meep-tc-sidecar/main.go:408-437 | Taking a chain from its parent and deleting it keeps the invariant. |
| LbChains.PreparedAddsTops | go-apps/meep-tc-sidecar/main.go:337-396 | Putting the top level in place adds no other chain, changes no service chain, and nothing at all if it is in place. |
| LbChains.TopLevelMeans | go-apps/meep-tc-sidecar/main.go:337-396 | In place are the masquerading of what leaves, the jump from OUTPUT to the chain of ME services, and those from PREROUTING to the chains of ingress and egress services. |
| LbReconciler.StepKeeps | go-apps/meep-tc-sidecar/main.go:454-537 | Each stored rule handled keeps what holds between rules: one chain of its own for each rule handled, all others still marked. |
| LbReconciler.StepChanges | go-apps/meep-tc-sidecar/main.go:486-507 | Something is made exactly when services are not distinct or some rule handled is not current. |
| LbReconciler.QuietIffDistinct | go-apps/meep-tc-sidecar/main.go:320-444 | After a successful refresh the next one on the same rules, in any order, finds nothing to do if and only if no two rules have the same service string. |
| LbReconciler.CaseFoldedNamesCollide | go-apps/meep-tc-sidecar/main.go:481-484 | Rules whose names differ in case alone have the same service string. |
| LbReconciler.ServiceStringsExactly | go-apps/meep-tc-sidecar/main.go:481 | Rules on ports without a dash have one service string if and only if type and port are the same and the names differ at most in case. |
| LbReconciler.ChainNamed | go-apps/meep-tc-sidecar/main.go:464-479 | A new chain has 25 characters and starts with the prefix of the rule's type, under the top chain of that type. |
| LbForwarding.Forwards | go-apps/meep-tc-sidecar/main.go:454-533 | After a successful refresh a packet that rules of others let pass is sent on if and only if a stored rule is for it (its address, port and protocol, in OUTPUT for ME services and in PREROUTING for the others), and then to the instance such a rule names; every other packet is left alone. |
| LbForwarding.ForwardsExactly | go-apps/meep-tc-sidecar/main.go:454-533 | Every packet for a stored rule reaches the instance of that rule if and only if all stored rules for the packet in that hook name one instance. |
| LbForwarding.OneServiceForwarded | go-apps/meep-tc-sidecar/main.go:481-484 | With one ME rule 10.0.0.1:80 is sent to 10.0.0.2:8080 and 10.0.0.2:80 stays. |
| LbSidecar.Sidecar.RefreshLbRulesHandler | go-apps/meep-tc-sidecar/main.go:454-537 | One rule is handled as the step function says, or fails leaving the table as it was and its service, if supported, mapped to the name drawn. |
| LbSidecar.Sidecar.RemoveChain | go-apps/meep-tc-sidecar/main.go:408-437 | The three commands on an unclaimed chain succeed and take it out. |
| LbSidecar.Sidecar.RefreshLbRules | go-apps/meep-tc-sidecar/main.go:320-444 | The invariant holds after any refresh. After a successful one the table is reconciled: each stored rule has exactly one chain, referred to once from the parent of its type and holding that rule alone, and there is no other service chain (LbForwarding.Forwards says what that does to traffic); connections are flushed once exactly if something had to be made; where nothing had to be made and no chain had to go, nothing changes; chains of others stay. A failed one flushes nothing and leaves the rules before the failing one handled. |
| LbSidecar.Sidecar.RefreshTwice | go-apps/meep-tc-sidecar/main.go:400-444 | After a failed refresh the next successful one flushes connections exactly when it finds something to make in what the failed one left. |
| LbSidecar.QuietAfterFailure | go-apps/meep-tc-sidecar/main.go:400-444 | A refresh that failed at an unsupported rule made chains exactly if its table was not up to date, and the next one on the other rules, in any order, makes nothing, and so flushes nothing, if and only if their services are distinct. |
| LbSidecar.Sidecar.FlushLost | go-apps/meep-tc-sidecar/main.go:400-450 | For a rule that is not current and an unsupported one, and then the first alone, a chain is made and connections are never flushed. |
| TcCommands.SkipsIffSameRendering | go-apps/meep-tc-sidecar/main.go:879-946 | A command is skipped exactly when the settings rendered equal those of the last applied, for decimal loss and rate and the same correlation. |
| TcCommands.SkippedWronglyExactly | go-apps/meep-tc-sidecar/main.go:879-946 | For decimal loss and rate a command that renders anew is skipped if and only if the correlation, and nothing else rendered, has changed. |
| TcCommands.CorrelationIsNotCached | go-apps/meep-tc-sidecar/main.go:918-924 | A change of the correlation alone is skipped although it is rendered. |
| TcCommands.LossRenderedExactly | go-apps/meep-tc-sidecar/main.go:886-900 | The rendered loss is the stored hundredths of a percent if and only if the store does not hold a single non-zero digit, which is rendered as tenths. |
| TcCommands.ReusedLeftBare | go-apps/meep-tc-sidecar/main.go:814-824 | An interface deleted and made again for the shape it had is left without settings. |
| TcCommands.TcRules.CmdSetIfb | go-apps/meep-tc-sidecar/main.go:879-946 | A command is applied unless the cache entry skips the shape, and then sets delay, jitter and correlation as stored, the rate unless none or zero is stored, and with jitter the distribution, normal if none is stored and none if it is uniform; the cache entry is that of the shape. |
| TcCommands.TcRules.RefreshNetCharRules | go-apps/meep-tc-sidecar/main.go:296-318 | After a refresh the interfaces and filters are exactly those stored. Each interface has its shape's fields as settings unless it had none and its cache entry skips; never so for a number never deleted. A filter redirects the addresses stored for it to its interface if and only if its number is new or it did so before. |
| TcEngine.AllKnown | go-apps/meep-tc-engine/tc-engine.go:913-917 | All addresses are known exactly when as many are known as there are. |
| TcEngine.TcEngine.AddPod | go-apps/meep-tc-engine/tc-engine.go:395-400 | A new pod is waited for unless the engine is ready; the counter stays the number of pods. |
| TcEngine.TcEngine.AddSvc | go-apps/meep-tc-engine/tc-engine.go:402-407 | The same for a service. |
| TcEngine.TcEngine.ProcessScenario | go-apps/meep-tc-engine/tc-engine.go:446-541 | Every process has an element; before the engine is ready exactly its pod, its services and their groups are waited for beside what was; elements and addresses that were there are kept, and once ready no address is added. |
| TcEngine.TcEngine.ProcessActiveScenarioUpdate | go-apps/meep-tc-engine/tc-engine.go:323-345 | No scenario resets everything; a scenario makes an idle engine wait for exactly its pods, services and groups beside what was, keeps the others' state, and makes no filter. |
| TcEngine.TcEngine.StopScenario | go-apps/meep-tc-engine/tc-engine.go:409-444 | Everything is forgotten and the store is empty. |
| TcEngine.TakenAllMeans | go-apps/meep-tc-engine/tc-engine.go:868-883 | Known addresses are kept, no name is added, and each name offered a non-empty address has one. |
| TcEngine.FirstIsTaken | go-apps/meep-tc-engine/tc-engine.go:868-883 | A name that waits takes the first non-empty address offered to it, and none if none is offered. |
| TcEngine.TcEngine.Poll | go-apps/meep-tc-engine/tc-engine.go:839-942 | An initializing engine takes the addresses found and becomes ready exactly when all wanted are known, then with filters that shape nothing yet; in any other state a tick does nothing. |
| TcEngine.TcEngine.SetFilterInfoRules | go-apps/meep-tc-engine/tc-engine.go:639-676 | For every order of both loops each destination gets a filter for each other process, numbered one by one, and the store has exactly these. |
| TcEngine.ReadyMeans | go-apps/meep-tc-engine/tc-engine.go:639-718 | When the engine is ready with n processes, each destination's filter numbers are exactly 1 to n-1, distinct per source, each with the known addresses of its source, and the store has exactly these entries. |
| TcEngine.TcEngine.NetCharUpdate | go-apps/meep-tc-engine/tc-engine.go:594-617 | An update reshapes one existing filter and its entry; it makes none and does nothing before the engine is ready. |
| TcDelivery.FiguresRendered | go-apps/meep-tc-engine/tc-engine.go:608-615 | What an update stores is rendered as its own figures: milliseconds of delay and jitter cut to integers, half correlated, the rate in bits a second or none below one bit, and with jitter the distribution in small letters, normal if none is named, none if it is uniform. |
| TcDelivery.LossOf | go-apps/meep-tc-engine/tc-engine.go:612 | The loss is rendered in hundredths of a percent, cut, but from 0.01 to below 0.1 percent as ten times that. |
| TcDelivery.NewFilterShapesNothing | go-apps/meep-tc-engine/tc-engine.go:650-672 | A filter that no update has reshaped renders no delay, jitter, distribution, loss or rate. |
| TcDelivery.UpdateReaches | go-apps/meep-tc-engine/tc-engine.go:594-718 | After an update and the refresh of the pod's sidecar the interface of the filter's number has the figures of the update, if its number was never deleted, and exactly what comes from the source's pod or service address is redirected to it, if no filter of that number was there. |
| PingHistory.RingStep | go-apps/meep-tc-sidecar/destination.go:74-84 | Writing a result keeps the ring that of the latest results, the oldest at the next place. |
| PingHistory.RingIsWindow | go-apps/meep-tc-sidecar/destination.go:98-131 | What is counted of the ring has the sum, least, greatest and sum of squares of the latest results. |
| PingHistory.MeanBetween | go-apps/meep-tc-sidecar/destination.go:115-134 | The mean of the results counted lies between the least and the greatest of them. |
| PingHistory.DeviationAboveMean | go-apps/meep-tc-sidecar/destination.go:128-135 | The standard deviation computed is never below the mean, as it is the root of the mean square. |
| PingHistory.DeviationRightExactly | go-apps/meep-tc-sidecar/destination.go:126-135 | The spread computed exceeds that around the mean by at least the square of the mean for each result, so it is the right one if and only if the mean is zero, and the deviation is never below the right one. |
| PingHistory.AlikeDeviation | go-apps/meep-tc-sidecar/destination.go:128-135 | Results that are all alike, which do not deviate from their mean, have themselves as standard deviation. |
| PingHistory.LossRatio | go-apps/meep-tc-sidecar/destination.go:108-111 | The loss is in [0,1] and times what was sent is what was lost. |
| PingHistory.History.AddResult | go-apps/meep-tc-sidecar/destination.go:74-84 | A result is added to the full history or counted as lost. |
| PingHistory.History.Compute | go-apps/meep-tc-sidecar/destination.go:86-151 | Last, best, worst, mean and deviation are those of the last min(received, capacity) results of the full history; best is at most the mean and the mean at most worst and the deviation; the loss is in [0,1]; the latency kept is the last result in milliseconds, if there is one. |
| Handover.SelectPoa | go-packages/meep-postgis/db.go:1225-1261 | The loops select what the selection in some order of the map gives. |
| Handover.PossibleIffReached | go-packages/meep-postgis/db.go:1225-1261 | A point of access can be selected by some order of the map if and only if it is possible by a description without orders: nearest of those that may replace the current one, or of some first one and all of a recognised type. |
| Handover.OrderMattersExactly | go-packages/meep-postgis/db.go:1225-1286 | With distinct distances two orders of the map give different selections if and only if several are in range, the current one is not, and the nearest of all is of no recognised type. |
| Handover.TwoOrders | go-packages/meep-postgis/db.go:1251-1257 | Two points of access in range, the nearer of an unknown type: either order selects the one it visits first. |
| Handover.StaysOrImproves | go-packages/meep-postgis/db.go:1241-1258 | For all distances, with two or more in range including the current one, the result is the current one or one strictly closer and of strictly higher priority. |
| Handover.TypesRanked | go-packages/meep-postgis/db.go:1263-1286 | WiFi ranks above 5G cells, these above 4G cells, these above generic points of access, and these above every other type, all alike. |
| Handover.SettlesWithinTwo | go-packages/meep-postgis/db.go:1225-1261 | Selecting again from one place settles with the second selection. |
| Handover.SelectsOutOfRangeTwice | go-packages/meep-postgis/db.go:1251-1257 | Both selections can differ and both can be out of range, because the loop looks at all points of access. |
| Handover.InRangeExactly | go-packages/meep-postgis/db.go:1225-1261 | Whatever can be selected is in range if and only if one alone is in range, or several are and each one out of range that contends (strictly closer than a current one in range and of higher priority; any, if there is none) is farther than one in range of a priority that counts. |
| Handover.EveryOrderInRange | go-packages/meep-postgis/db.go:1225-1261 | The same of what the loops select in every order of the map. |
| Handover.SelectedInRangeExactly | go-packages/meep-postgis/db.go:1225-1261 | Where the order of the map does not decide, the one selection is in range exactly then. |
| Handover.FreshInRangeExactly | go-packages/meep-postgis/db.go:1241-1258 | With several in range and the current one out of range, the selection is in range if and only if the nearest of all is, if that is of a recognised type. |
| Handover.RefreshedAgree | go-packages/meep-postgis/db.go:1095-1101 | Any two refreshes of a row from the same state agree on the point of access, the distance and those in range. |
| Handover.RefreshedRow | go-packages/meep-postgis/db.go:1053-1101 | A refreshed row lists exactly the points of access that reach the UE, each once, and the distance of the one selected; with several in range and the one before among them, another is selected only if it is closer and of a type ranked above. |
| Handover.Connector.RefreshUePoa | go-packages/meep-postgis/db.go:1037-1107 | One UE's row becomes a refreshed row; others stay. |
| Handover.Connector.RefreshAllUePoa | go-packages/meep-postgis/db.go:1110-1222 | Every UE's row becomes what refreshing that UE alone gives, also when there is no point of access. |
| ReplayManager.SentExactly | go-packages/meep-replay-manager/replayMgr.go:105-140 | A round sends all events but the Inits, in order, if and only if Inits are not ignored or no two of them are in a row. |
| ReplayManager.WaitsMeans | go-packages/meep-replay-manager/replayMgr.go:142-166 | A round waits the time from its first event to its last, less the time by which what follows an ignored Init is early. |
| ReplayManager.TimeLeftRight | go-packages/meep-replay-manager/replayMgr.go:273-296 | At any moment before an event falls due the time told is the time left until it does if and only if what is taken off is what the event's time is ahead of that moment. |
| ReplayManager.StatusRightThroughout | go-packages/meep-replay-manager/replayMgr.go:142-166 | In every wait of a round both remaining times are those left until the timer fires and until the last event is processed, if and only if the first event is an ignored Init, or none is ignored and it is at time zero, and no later ignored Init makes anything early. |
| ReplayManager.NoneEarlyIffNoTimeLost | go-packages/meep-replay-manager/replayMgr.go:105-166 | Where times never fall, no ignored Init makes anything early exactly if the round loses no time. |
| ReplayManager.LoopWaitRight | go-packages/meep-replay-manager/replayMgr.go:142-178 | In the wait between two rounds the time to the next event is told right at no moment or at all, by the same condition, and is told as none left unless the first event is later than the offset. |
| ReplayManager.LaterInitIsNotTold | go-packages/meep-replay-manager/replayMgr.go:105-166 | After a later ignored Init the last of four events follows in 10 milliseconds, and the status tells 40. |
| ReplayManager.ReplayMgr.Start | go-packages/meep-replay-manager/replayMgr.go:184-206 | A replay is refused while one runs or with fewer than two events; else its first event is processed, the second if the first is an ignored Init, and the next is due or the run is over. |
| ReplayManager.ReplayMgr.PlayEventByIndex | go-packages/meep-replay-manager/replayMgr.go:89-181 | Each event played keeps the trace: what was sent and waited for and what is left from the next index on make up the round, that index is in range, and the timer is set to the time between the events, or to five seconds between two rounds. |
| ReplayManager.ReplayMgr.FireUntilDone | go-packages/meep-replay-manager/replayMgr.go:169-178 | A run that does not loop sends everything of its round once, in order, waits all its waits, and stops. |
| ReplayManager.ReplayMgr.Stop | go-packages/meep-replay-manager/replayMgr.go:219-226 | A replay is stopped only by the name of the file that runs. |
| ReplayManager.ReplayMgr.ForceStop | go-packages/meep-replay-manager/replayMgr.go:209-216 | Whatever runs is stopped, and it is told whether something ran. |
| ReplayManager.ReplayMgr.GetStatus | go-packages/meep-replay-manager/replayMgr.go:235-296 | While a replay runs, looping or not, the status is that of the event processed last, with the remaining times for the milliseconds elapsed; before the timer fires each is the time left by the waits set if and only if the offset is what the event's time is ahead of when it falls due; otherwise there is no status. |

## Left out

- SegmentOvercommit.ConservedExactly: is about lists on which no rate falls on a tag; SegmentAllLists.KeepsWithinExactly is about all lists.
- NetCharDelivery.MergedPlansFit: speaks of the active flows re-evaluated in one tick; with what others keep, NetCharDelivery.MergedSegmentFits asks for orderly flows and the exact condition of SegmentPlans.WholeSegmentExactly.
- SegmentPlans.PlansExactly: is about orderly flows, on which no rate is on a tag and no inactive flow is left for the later categories.
- Which of several segments that offer a flow the same least rate gives it its bounds (the one visited first) and the sign of plans: the code guarantees neither.
- Names of segments: the segment map is keyed by element and direction, which the name determines; createPath gathers the crossings of a flow first and creates their segments in that order after.
- NetCharAlgorithm.Algorithm.ProcessScenario: takes the ends of flows and the characteristics of elements as parameters, which ScenarioEnds reads off the scenario model; the reroute mark is stated for a name routed once; getNetChars does not write its defaults back.
- segment.CurrentThroughput, log output, configuration attributes and the creation of metrics entries.
- Locks: the handlers, ticks and polls of each component are taken one at a time.
- ScenarioModel.Model.MoveNode: excludes nodes and destinations that are not of the kinds the code casts them to, on which it panics; after an edge application moved, operations are modelled only once the scenario is set again, as the index then keeps pointers to what was overwritten.
- Objects shared between the tree and its index: the tree is a value and a node holds the place of its element, so an update in place rewrites the element at that place. Pointers a caller keeps across an edit are not modelled. Service maps of external processes are left out.
- The five nested loops of the parser, and those of the upgrades, are one method that calls itself for the children of an element.
- ScenarioValidator.ValidateScenario: excludes 1.4.x scenarios with a zone without a NetChar, on which the code panics; JSON is parsed already and versions are given by their numbers and whether they are pre-releases.
- The active scenario stored in Redis, callbacks after an edit, and the lookups of a node, its type, parent, context and edges.
- Network elements and filters of the engine are values in its map, which alone refers to them; load-balancing rules written by the engine, service descriptions and transaction numbers are left out.
- LbSidecar.Sidecar.RefreshLbRules: commands fail only for what the table shows (a name taken, a rule missing, a chain in use), and each stored entry is seen once.
- TcCommands.TcRules.RefreshNetCharRules: commands on interfaces and filters succeed; of several filters for one address the kernel takes the lowest number, which is not modelled.
- LbForwarding.Forwards: rules match a packet's protocol, destination and port as text, jumps are followed to any depth of at least two, and what a rule of others does with a packet is a condition on the table.
- Handover.Connector.RefreshUePoa: distances and ranges are parameters of a refresh, and names are not empty.
- ScenarioEnds.ReadEnds: asks for characteristics on the deployment and on each process, which the code reads without a check, as ScenarioEnds.SegmentsFromTree does on every element.
- ReplayManager.ReplayMgr.Start: excludes files on which the code panics: an ignored Init that falls due last, or a timer that would be set to no positive time. The clock is the milliseconds elapsed, and sending succeeds.
- Traffic statistics, the pinger, REST clients, message queues, databases and Kubernetes.
