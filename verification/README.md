# A verified model of the Cassandra operator's reconcile loop

The operator watches `CassandraDatacenter` resources and, pass by pass, moves a Cassandra cluster
on Kubernetes toward what their specs ask for. This project models one such pass, from the first
check to the last, the protocols that span passes (bringing nodes up, giving nodes up, replacing
and restarting them, rolling out templates, draining Kubernetes nodes), and the index that records
which secrets a datacenter watches. It proves what these protocols promise: for every input, for
every pass, and for every interleaving of passes over all datacenters of a cluster with whatever
Kubernetes and the users do in between.

## How it is built

- `Racks`, `Names`, `Lists`, `Conditions`: rack arithmetic, names and suffixes, the list helpers and
  the condition list of the status.
- `Model`: the world as one pass sees it (pods with their labels, StatefulSets, spec and status, the
  answers of the outside world) as values.
- `Specs`, `EmmSpecs`: for every check, what it may do, as a relation between the world before, the
  world after and the result. A failing API call is possible whenever `env.apiUp` is false.
- `Cluster`, `Status`, `Scaling`, `Startup`, `Rollout`, `Emm`: the checks as programs over mutable
  `Pod`, `StatefulSet`, `Datacenter` and `Context` objects. The datacenter's pod list and the
  cluster's share their pods. Each method is proved against its check's relation. Go's map
  iteration is a nondeterministic choice.
- `Pass`: the checks in their order and the whole pass, proved to be a path through the relations.
- `Frames`, `Labels`: which check writes what; every check moves at most one node-state label.
- `Opening`, `DrainHandover`, `Approach`: how far a pass may come, exactly, from the world before it.
- `Decommission`, `BringUp`, `Seeds`, `Resizing`, `Lowering`, `Spread`, `Convergence`, `Quiescence`,
  `Rolling`, `Replacing`, `Clearing`, `Draining`, `FailedDrains`: what every pass guarantees.
- `Fleet`, `DecommissionRuns`, `ScalingRuns`, `RestartRuns`, `DrainRuns`: runs, that is, passes over several
  datacenters interleaved with outside events: pods appear, vanish, change readiness, are listed in
  another order; specs are edited. All datacenters of the cluster are taken to be in one namespace, as a
  pass lists the pods of its own namespace only.
- `DrainRounds`: successive drain checks over one datacenter, without the other checks. In between, pods
  removed go and come back, new pods appear, and taints and spec change.
- `Watch`: the dynamic watch index against the plain relation "who watches what".

Proofs about passes follow one pattern: a lemma per check, a step lemma over the table of checks, an
induction over the checks that handed over, and a theorem about the pass.

## Where the promise needed a condition

- With bootstrapped pods down in at most one rack, the drain check keeps it so exactly when the pods it
  may remove next share a rack with them (`DrainRuleExact`, and per action `EvacuationExact` and
  `DowntimeExact`). It does if no node going down hosts pods of two racks and every down pod has its rack
  label (`DrainKeepsRacksUp`). `TwoRacksExample` and `UnlabelledExample` are clusters in which it does not.
  Counting also removed pods that were never bootstrapped, it is one rack exactly when some rack is down
  already or the unready pods on tainted nodes lie in one rack (`DrainAffectsOneRack`,
  `UnreadyRemovalAffectsSeveral`); the comment at operator/pkg/psp/emm.go:9-21 says such pods are ignored
  on purpose.
- Over successive drain checks the pods down or on their way out stay in one rack exactly when the pods each
  check may remove share a rack with them (`RoundExact`, `RoundsKeepOneRack`). They do where, besides, every
  pod on its way out reports that it is not ready (`OrderlyIsCareful`). One that still reports ready is not
  counted as down, and the next check takes pods of another rack (`TwoRacksInTwoRounds`).
- A rack is lowered for a leaving node once its decommission is found done. That a node is not listed, as
  when nobody answered, counts as done (`UnansweredLowers`).
- A node that is leaving is followed down even if the size was raised again in the meantime. Passes keep racks
  at their shares exactly when no rack at its share is still to be lowered for a leaving node found done
  (`SharesKeptExact`; `ExampleFalls` goes from `[3]` to `[2]` with three nodes wanted). Over a run that happens
  once at most, and costs two changes more (`ScalingConverges`).
- "Replacements pending" implies the ReplacingNodes condition on a running datacenter (`PassTracks`), and on a
  stopped one exactly when something ends the pass before the actions are cleared or no replacement is pending
  by then (`TracksExact`). Otherwise a pass clears the condition and keeps the list (`ClearingForgets`).
- Every pass keeps the names of nodes to replace exactly when its calls succeed, or the datacenter is not
  admitted (it has fewer nodes than racks, or was found invalid), or the names are tracked already
  (`NamesKeptExact`); otherwise a failure between the two writes of the status check forgets them
  (`FailureForgetsNames`).
- Racks within `d` nodes of each other stay so in every pass exactly when two things do not drive them apart:
  lowering a rack for a leaving pod, and, unless calls succeed or the pass does not come to scaling, the scale-up
  cut short at any rack (`SpreadExact`; as a condition on the counts and the size alone, `SpreadExactInCounts`).
  A lowering that the size still warrants never does (`WarrantedIsWithin`). `ExampleCut` goes from `[0, 0]` to
  `[5, 0]`.
- A rolling restart makes every old pod go at most once (`RestartEnds`, `NeverTwice`), though it may ask again
  for the deletion of a pod that is already on its way out (`DeletesAgain`).
- With a failed drain passes remove nothing exactly when the datacenter is not admitted or none of its pods
  lacks its volume; otherwise they may remove such a pod, the first one if calls succeed
  (`FailedDrainExact`, `MissingVolumeRemoved`).
- A watch naming a resource that does not exist is not recorded, nor are the others of that call
  (`UpdateWatch`). A call that failed half-way is made good by repeating it (`RetryHeals`).

## Model

| member | source | states |
|---|---|---|
| `Racks.SplitRacks` | operator/pkg/apis/cassandra/v1beta1/cassandradatacenter_types.go:754-768 | the result sums to the node count and no two racks differ by more than one, larger ones first |
| `Racks.SplitUnique` | operator/pkg/apis/cassandra/v1beta1/cassandradatacenter_types.go:754-768 | the split is the only such topology |
| `Racks.CalculateRackInformation` | operator/pkg/reconciliation/reconcile_racks.go:49-102 | succeeds exactly when there is a rack and no more racks than nodes; one entry per rack in order |
| `Racks.SeedAllocation` | operator/pkg/reconciliation/reconcile_racks.go:67-94 | every rack gets between one seed and its node count, and the counts sum to the totals |
| `Racks.ExcessExists` | operator/pkg/reconciliation/decommission_node.go:20-74 | while there is a node, some rack holds more than its share of a split one node smaller |
| `Racks.ShrinkStep` | operator/pkg/reconciliation/decommission_node.go:67-111 | taking a node from the first such rack keeps every rack at its share, lowers the total by one and spreads no racks further apart |
| `Racks.ScaleConverges` | operator/pkg/reconciliation/decommission_node.go:45-114 | from any counts, scaling up and then shrinking one node at a time ends in exactly the split |
| `Racks.SettledAtSplit` | operator/pkg/reconciliation/decommission_node.go:57-59 | no rack below its share and no node too many leaves exactly the split |
| `Racks.GetRacks` | operator/pkg/apis/cassandra/v1beta1/cassandradatacenter_types.go:268-276 | there is always a rack |
| `Racks.ValidateTopologyChange` | operator/pkg/apis/cassandra/v1beta1/webhook.go:120-162 | accepts an edit exactly when racks are only appended, unchanged otherwise, with enough new nodes; otherwise names the first rule broken and the first rack changed |
| `Racks.AddingRacksKeepsShares` | operator/pkg/apis/cassandra/v1beta1/webhook.go:127-146 | an accepted edit that adds racks gives every old rack at least its former share |
| `Names.SuffixPicksLastPod` | operator/pkg/reconciliation/decommission_node.go:306-308 | the suffix test matches a pod exactly if its ordinal is the last replica's, so sts-1 does not match pod 11 |
| `Names.RoundTrip` | operator/pkg/dynamicwatch/watch.go:69-84 | parsing a printed name gives it back exactly when the name has no slash and the namespace does not end in one |
| `Names.ToStringInjective` | operator/pkg/dynamicwatch/watch.go:82-84 | the printed form identifies the name |
| `Lists.ElementsMatch` | operator/pkg/utils/utilities.go:33-67 | true exactly when the two lists are permutations of each other |
| `Lists.RemoveValueFromStringArray` | operator/pkg/utils/utilities.go:111-120 | in place: the list without the first occurrence of the value, the freed slot blanked |
| `Lists.AppendValuesToStringArrayIfNotPresent` | operator/pkg/utils/utilities.go:122-130 | extends the list by exactly the missing values, adding no duplicate |
| `Lists.IndexOf` | operator/pkg/utils/utilities.go:99-109 | the first position of the value, or -1 exactly when it is absent |
| `Lists.RemoveOneMore` | operator/pkg/reconciliation/reconcile_racks.go:1025-1054 | removing names one after the other in place removes the set of them |
| `Conditions.FirstFound` | operator/pkg/apis/cassandra/v1beta1/cassandradatacenter_types.go:469-490 | a lookup finds the first entry of its type, and none only if there is none |
| `Conditions.SetCondition` | operator/pkg/apis/cassandra/v1beta1/cassandradatacenter_types.go:492-511 | afterwards the condition has the given status and every other its former one |
| `Conditions.WithStatus` | operator/pkg/reconciliation/reconcile_racks.go:2046-2055 | a status that does not change keeps its transition time, one that does gets the current time, others are untouched |
| `Conditions.SetStatus` | operator/pkg/reconciliation/reconcile_racks.go:2046-2055 | reports a change exactly when the status differed |
| `Cluster.Context.constructor` | operator/pkg/reconciliation/reconcile_racks.go:2256-2259 | the datacenter's pods are exactly the cluster's pods with its label, the same objects in the same order |
| `Cluster.Context.PatchState` | operator/pkg/reconciliation/reconcile_racks.go:1717-1738 | a label written through one pod list is seen through the other; a failed write changes nothing |
| `Cluster.Context.SetOperatorProgress` | operator/pkg/reconciliation/constructor.go:46-65 | sets the progress or, on failure, changes nothing |
| `Cluster.Context.UpdateRackNodeCount` | operator/pkg/reconciliation/reconcile_racks.go:1480-1500 | progress first, then the replica count; a failure stops between the two |
| `Status.FixMissingPvc` | operator/pkg/reconciliation/reconcile_racks.go:2195-2241 | deletes the first pending pod found without a claim, if any, and ends the pass; a lookup that fails passes a pod over |
| `Status.UpdateCassandraNodeStatus` | operator/pkg/reconciliation/reconcile_racks.go:966-1003 | known host IDs are kept, every pod gets an entry, only a pod whose management API runs can gain an ID |
| `Status.UpdateCurrentReplacePodsProgress` | operator/pkg/reconciliation/reconcile_racks.go:1018-1058 | what is left is the list without the names whose replacement is over |
| `Status.UpdateStatus` | operator/pkg/reconciliation/reconcile_racks.go:1060-1144 | spec and status are written in this order, and what each failure leaves behind |
| `Status.CheckCassandraNodeStatuses` | operator/pkg/reconciliation/reconcile_racks.go:2098-2112 | hands over exactly when every pod's host ID is known |
| `Scaling.CheckRackStoppedState` | operator/pkg/reconciliation/reconcile_racks.go:447-526 | a stopped datacenter with replicas left is brought to zero and marked stopped, or cut short between writes |
| `Scaling.CheckRackScale` | operator/pkg/reconciliation/reconcile_racks.go:755-817 | every rack below its share is raised to it, none lowered, with the conditions of growing or resuming; or cut short |
| `Scaling.DecommissionNodes` | operator/pkg/reconciliation/decommission_node.go:20-114 | with nodes too many, asks the first rack in excess to give up its last node |
| `Scaling.DecommissionNodeOnRack` | operator/pkg/reconciliation/decommission_node.go:116-150 | labels the first pod with the last replica's suffix, or says why not |
| `Scaling.CheckDecommissioningNodes` | operator/pkg/reconciliation/decommission_node.go:153-195 | waits for a leaving pod, cleans up once its decommission is found done, clears the condition when nobody leaves |
| `Scaling.CleanUpAfterDecommissionedPod` | operator/pkg/reconciliation/decommission_node.go:197-219 | lowers the rack, deletes the claim and forgets the host ID, in this order, with every point of failure |
| `Scaling.RemoveDecommissionedPodFromSts` | operator/pkg/reconciliation/decommission_node.go:279-304 | lowers the replica count by one only if the pod is still the last one |
| `Startup.FindStartedNotReadyNodes` | operator/pkg/reconciliation/reconcile_racks.go:1717-1738 | relabels the first pod whose readiness changed, and only a lost one ends the pass |
| `Startup.DeleteStuckNodes` | operator/pkg/reconciliation/reconcile_racks.go:1190-1272 | deletes the first stuck pod, if any |
| `Startup.LabelSeedPods` | operator/pkg/reconciliation/reconcile_racks.go:1291-1348 | settles the seed labels of one rack and finds a seed exactly when the rack has a ready pod |
| `Startup.CheckSeedLabels` | operator/pkg/reconciliation/reconcile_racks.go:529-541 | settles all racks; the seeds found are none exactly when no ready seed exists |
| `Startup.SeedsExistWhereReady` | operator/pkg/reconciliation/reconcile_racks.go:1291-1348 | a running datacenter has a ready seed exactly when some rack has a ready pod |
| `Startup.FindStartingNodes` | operator/pkg/reconciliation/reconcile_racks.go:1689-1715 | looks at the whole cluster: finishes the first starting pod if it is ready, waits otherwise |
| `Startup.StartCassandra` | operator/pkg/reconciliation/reconcile_racks.go:1740-1788 | labels the pod Starting unless a pod to be replaced has no known address or a call fails |
| `Startup.StartOneNodePerRack` | operator/pkg/reconciliation/reconcile_racks.go:1791-1847 | starts the first startable pod of some rack without a ready node, as a seed if none is at hand; hands over exactly when every rack has a ready node and none can be opened |
| `Startup.StartAllNodes` | operator/pkg/reconciliation/reconcile_racks.go:1850-1875 | starts the first pod that needs it, else waits for management APIs |
| `Startup.CountReadyAndStarted` | operator/pkg/reconciliation/reconcile_racks.go:1877-1900 | counts over the datacenter's own list equal counts over the cluster's pods of that datacenter |
| `Rollout.CheckRollingRestart` | operator/pkg/reconciliation/reconcile_racks.go:1996-2044 | accepts a requested restart, then deletes the first pod older than it |
| `Rollout.CheckRackPodTemplate` | operator/pkg/reconciliation/reconcile_racks.go:186-323 | writes the first rack that is not current, waits for the first that is not settled, one rack under a canary upgrade |
| `Rollout.ClearActions` | operator/pkg/reconciliation/reconcile_racks.go:2121-2164 | every condition's final status, and a change exactly when some action was not settled |
| `Rollout.CheckClearActionConditions` | operator/pkg/reconciliation/reconcile_racks.go:2114-2183 | hands over exactly when all action conditions are settled and the datacenter is valid |
| `Rollout.CheckConditionInitializedAndReady` | operator/pkg/reconciliation/reconcile_racks.go:2057-2084 | hands over exactly when Initialized, and Ready unless stopped, are already true |
| `Emm.TaintedNodes` | operator/pkg/psp/emm.go:213-227 | exactly the nodes the datacenter cares about, by pod or by volume, that carry the taint; fails if a claim or node is missing |
| `Emm.FailNext` | operator/pkg/psp/emm.go:257-268 | past the first two guards, failing a node's drain reports an update exactly when the node hosts a pod |
| `Emm.FailNodes` | operator/pkg/psp/emm.go:546-557 | annotates all pods on the nodes, whatever the order, and tells whether there was one |
| `Emm.RemoveNotReadyPodsOn` | operator/pkg/psp/emm.go:229-255 | removes exactly the unready pods on tainted nodes |
| `Emm.RemoveNextPodFromEvacuateDataNode` | operator/pkg/psp/emm.go:348-365 | removes one pod of some node being evacuated, if such a node hosts one |
| `Emm.RemoveAllPodsFromOnePlannedDowntimeNode` | operator/pkg/psp/emm.go:367-382 | removes all pods of one node going down; a failed node query goes unreported |
| `Emm.PerformEvacuateDataPodReplace` | operator/pkg/psp/emm.go:297-346 | hands every stranded pod over for replacement, its name recorded before it is removed |
| `Emm.StartNodeReplace` | operator/pkg/reconciliation/check_nodes.go:168-203 | records the name, then removes the pod; a failure in between leaves the name |
| `Emm.CheckEmm` | operator/pkg/psp/emm.go:482-743 | the ordered guards of the drain check |
| `Pass.ReconcileAllRacks` | operator/pkg/reconciliation/reconcile_racks.go:2244-2372 | a pass is a path through the checks' relations, ending where one does not hand over or having run through all |
| `Frames.StepKeeps` | operator/pkg/reconciliation/reconcile_racks.go:2244-2372 | for every check, which parts of pods, StatefulSets and status it leaves untouched |
| `Frames.PassShape` | operator/pkg/reconciliation/reconcile_racks.go:2244-2372 | no pass changes the spec, the set of pods or the StatefulSets' identities |
| `Labels.StepLabels` | operator/pkg/reconciliation/reconcile_racks.go:544-645 | every check moves at most one node-state label, each only in its own way |
| `Decommission.LastPodUnique` | operator/pkg/reconciliation/decommission_node.go:116-119 | at most one pod of a rack matches the suffix, the one with the last ordinal |
| `Decommission.CleanUpLowers` | operator/pkg/reconciliation/decommission_node.go:197-219 | cleaning up lowers only the pod's own rack, only from the pod's own replica |
| `Decommission.GiveUpStep` | operator/pkg/reconciliation/decommission_node.go:45-150 | the one pod labelled is the last of the first rack in excess, and there are nodes too many |
| `Decommission.PassKeepsOneLeaver` | operator/pkg/reconciliation/reconcile_racks.go:2291-2336 | every pass keeps: at most one pod leaving, only under ScalingDown, its rack at its ordinal or one above |
| `Decommission.LeaverIsFollowedDown` | operator/pkg/reconciliation/decommission_node.go:153-304 | while a pod is leaving no pass relabels any pod, and a pass lowers its rack only from its own replica and only if it found the decommission done |
| `DecommissionRuns.LoweredOnce` | operator/pkg/reconciliation/decommission_node.go:153-304 | in every interleaving, while a leaving pod exists it stays leaving, its rack is lowered at most once and never raised, and only by a pass over its datacenter that found it done |
| `DecommissionRuns.PassLowers` | operator/pkg/reconciliation/decommission_node.go:153-219 | a pass over an admitted datacenter that finds the node done, calls succeeding, leaves the rack lowered |
| `DecommissionRuns.LoweredExactlyOnce` | operator/pkg/reconciliation/decommission_node.go:153-304 | after such a pass the rack has been lowered exactly once, however many passes follow |
| `DecommissionRuns.UnansweredLowers` | operator/pkg/reconciliation/decommission_node.go:231-244 | a node that no endpoint data lists is taken as done, and its rack lowered |
| `BringUp.NoneLeftStarting` | operator/pkg/reconciliation/reconcile_racks.go:1689-1715 | when the starting check hands over, no pod of the cluster is starting |
| `BringUp.PassKeepsOneStarting` | operator/pkg/reconciliation/reconcile_racks.go:544-645 | every pass keeps at most one pod of the whole cluster starting |
| `BringUp.PassProgresses` | operator/pkg/reconciliation/reconcile_racks.go:1689-1875 | twice the pods not started plus those starting never rises in a pass and drops at every start and finish |
| `BringUp.PassStartsInOrder` | operator/pkg/reconciliation/reconcile_racks.go:529-645 | a pod is started only with a seed available, and in a rack with a ready pod only if every rack has one |
| `Seeds.FirstsCount` | operator/pkg/reconciliation/reconcile_racks.go:1296-1313 | of any set of names there are exactly as many first ones as asked for, or all |
| `Seeds.SeedLabelsExact` | operator/pkg/reconciliation/reconcile_racks.go:1291-1348 | after the check a rack's seeds are exactly its first ready pods by name, as many as it is to have or all there are, and labelled pods still starting |
| `Resizing.PassMoves` | operator/pkg/reconciliation/reconcile_racks.go:755-817 | a pass over a running datacenter raises racks in order to their shares, all of them unless a write fails, lowers the first rack in excess by one, or leaves the counts alone; or it lowers a rack for a leaving pod without warrant any more, and that is the last such lowering |
| `Resizing.PassKeepsWarranted` | operator/pkg/reconciliation/decommission_node.go:67-111 | while the spec stands, a rack still to be lowered is the first in excess with nodes too many |
| `Resizing.MovesKeepSpread` | operator/pkg/reconciliation/decommission_node.go:20-114 | no such move drives the racks further than one node or what they were apart, if no raise cut short on the way does |
| `Resizing.MovesConverge` | operator/pkg/reconciliation/decommission_node.go:20-114 | from any counts, every such move that changes anything brings the counts nearer to the split, rack by rack |
| `Resizing.ScalingEnds` | operator/pkg/reconciliation/decommission_node.go:20-114 | counts that move so change at most as often as they are away from the split, and twice more for every unwarranted lowering |
| `ScalingRuns.ScalingConverges` | operator/pkg/reconciliation/reconcile_racks.go:755-817 | in every interleaving from any safe state, while a running datacenter keeps its size and racks: its counts change at most as often as they are away from the split, no rack falls below its share, and no rack below and no node too many is the split; an unwarranted lowering still to come at the start allows two more changes and one node below the share |
| `Lowering.LowersPass` | operator/pkg/reconciliation/decommission_node.go:197-219 | a leaving pod found done whose rack is still to be lowered has it lowered by some pass, whatever the size is now |
| `Lowering.LoweredOnlyIf` | operator/pkg/reconciliation/decommission_node.go:153-219 | while a pod is leaving nothing else changes the counts |
| `Lowering.SharesKeptExact` | operator/pkg/reconciliation/decommission_node.go:153-219 | every pass keeps racks at their shares exactly if no rack at its share is still to be lowered for a leaving pod found done |
| `Lowering.ExampleFalls` | operator/pkg/reconciliation/decommission_node.go:153-219 | a rack of three with three wanted that every pass takes to two |
| `Spread.CutPass` | operator/pkg/reconciliation/reconcile_racks.go:755-817 | a pass that may come to scaling may be cut short after any rack |
| `Approach.MayScaleExact` | operator/pkg/reconciliation/reconcile_racks.go:2244-2312 | a pass may come to scaling exactly if, for some answers about host IDs, the datacenter is admitted, no pod need be found without its claim, nobody is leaving, a stopped one has no replicas left and the drain check hands over |
| `DrainHandover.HandsOverExact` | operator/pkg/psp/emm.go:482-743 | the drain check hands over, changing nothing, exactly if it is off, the datacenter is still coming up, or no guard acts and there is nothing to drain |
| `Spread.SpreadExact` | operator/pkg/reconciliation/reconcile_racks.go:755-817 | racks within a distance stay so in every pass exactly if lowering a rack for a leaving pod does not drive them apart and, unless calls succeed or it cannot come to scaling, no cut-short scale-up does |
| `Spread.WarrantedIsWithin` | operator/pkg/reconciliation/decommission_node.go:67-111 | a lowering that the size still warrants drives no racks apart |
| `Spread.SpreadExactInCounts` | operator/pkg/reconciliation/reconcile_racks.go:755-817 | as a condition on the counts and the size alone, over all running datacenters, warranted lowerings or not |
| `Spread.ExampleCut` | operator/pkg/reconciliation/reconcile_racks.go:755-817 | a pass over two empty racks that ends with five nodes in one and none in the other |
| `Resizing.NeverShortOfNodes` | operator/pkg/reconciliation/decommission_node.go:27-29 | in a pass, giving up a node never raises the rack-count error |
| `Convergence.ReadyMeansConverged` | operator/pkg/reconciliation/reconcile_racks.go:2244-2372 | a pass that reports a running datacenter ready leaves the exact split, enough nodes ready and started, all host IDs, no replacement, nobody leaving, templates current, no action, Valid |
| `Quiescence.QuietStep` | operator/pkg/reconciliation/reconcile_racks.go:2244-2372 | no check changes a converged world and each hands over |
| `Quiescence.ConvergedStaysPut` | operator/pkg/reconciliation/reconcile_racks.go:2244-2372 | from a converged state a pass runs through to Ready, no pass ends early, and none changes anything |
| `Quiescence.ConditionsSettle` | operator/pkg/reconciliation/reconcile_racks.go:2057-2183 | whatever the conditions were, clearing the actions settles them and making ready settles the rest without undoing it |
| `Quiescence.ExampleQuiet` | operator/pkg/reconciliation/reconcile_racks.go:2244-2372 | a concrete converged datacenter |
| `Rolling.PassRollsOut` | operator/pkg/reconciliation/reconcile_racks.go:186-323 | a pass writes at most one rack's template, all racks before it current and settled, with enough nodes up |
| `Rolling.PassRollsForward` | operator/pkg/reconciliation/reconcile_racks.go:219-294 | every template write leaves exactly one stale rack less |
| `Rolling.PassRestartsOne` | operator/pkg/reconciliation/reconcile_racks.go:1996-2044 | a pass ending at the restart check deletes at most one pod, an old one, with enough nodes ready, and one old pod less is left unless it was going already |
| `RestartRuns.RestartEnds` | operator/pkg/reconciliation/reconcile_racks.go:1996-2044 | in every interleaving, with no further restart asked for, the old pods that passes make go are at most the old pods there were |
| `RestartRuns.NeverTwice` | operator/pkg/reconciliation/reconcile_racks.go:1996-2044 | no pod is made to go twice |
| `RestartRuns.RestartComesFirst` | operator/pkg/reconciliation/reconcile_racks.go:1996-2044 | while an old pod is left no pass gets past the restart check |
| `RestartRuns.OldPodsReplaced` | operator/pkg/reconciliation/reconcile_racks.go:1996-2044 | when a pass gets past it, none of the pods that were old is still there |
| `RestartRuns.DeletesAgain` | operator/pkg/reconciliation/reconcile_racks.go:2027-2041 | in an otherwise settled datacenter a pass deletes the first old pod, on its way out already or not |
| `RestartRuns.ExampleDeletedAgain` | operator/pkg/reconciliation/reconcile_racks.go:2027-2041 | a concrete datacenter in which a terminating pod is deleted again |
| `Replacing.StatusTracks` | operator/pkg/reconciliation/reconcile_racks.go:1018-1084 | the status check keeps the list duplicate-free and under the condition, takes in every name asked for and drops only finished ones |
| `Replacing.PassTracks` | operator/pkg/reconciliation/reconcile_racks.go:2121-2159 | on a running datacenter every pass keeps: pending replacements imply ReplacingNodes |
| `Replacing.PassAccounts` | operator/pkg/reconciliation/reconcile_racks.go:1018-1144 | names enter only from the spec, leave only by a Started pod newer than the replacement or after thirty minutes, and none is forgotten while calls succeed |
| `Replacing.FailureForgetsNames` | operator/pkg/reconciliation/reconcile_racks.go:1121-1141 | a pass with a failure between the two writes forgets the names asked for |
| `Replacing.NamesKeptExact` | operator/pkg/reconciliation/reconcile_racks.go:1018-1144 | every pass keeps the names asked for exactly if calls succeed, or the datacenter is not admitted, or they are tracked already |
| `Clearing.TracksExact` | operator/pkg/reconciliation/reconcile_racks.go:2121-2159 | every pass keeps it exactly if the datacenter runs, or something in the world before the pass ends it ahead of clearing the actions, or no replacement is pending by then |
| `Clearing.MayClearExact` | operator/pkg/reconciliation/reconcile_racks.go:547-549 | a pass over a stopped datacenter may clear with a replacement pending exactly if it may come to scaling, all host IDs get known, no pod is older than the restart, templates are current and a name is still tracked |
| `Clearing.WayToClearWithoutDrains` | operator/pkg/reconciliation/reconcile_racks.go:547-549 | where no node is drained, host IDs get known exactly if each is known or its pod can answer |
| `Clearing.ClearingForgets` | operator/pkg/reconciliation/reconcile_racks.go:2121-2159 | then a pass clears the condition and keeps the list |
| `Clearing.ExampleForgets` | operator/pkg/reconciliation/reconcile_racks.go:2121-2159 | a concrete stopped datacenter in which it does |
| `Draining.EmmActs` | operator/pkg/psp/emm.go:482-743 | whatever the check does is one of seven actions, each with the guards it passed |
| `Draining.DrainRuleExact` | operator/pkg/psp/emm.go:9-21 | with bootstrapped pods down in one rack at most, every outcome of the check keeps it so exactly if the pods it may remove next share a rack with them |
| `Draining.EvacuationExact` | operator/pkg/psp/emm.go:348-365 | evacuating a pod keeps the rule exactly if the pod shares a rack with the down pods |
| `Draining.DowntimeExact` | operator/pkg/psp/emm.go:367-382 | taking a node down keeps the rule exactly if its pods and the down pods share a rack |
| `Draining.DrainKeepsRacksUp` | operator/pkg/psp/emm.go:9-21 | it is kept if no node going down hosts pods of two racks and every down pod has its rack label, even on failures half-way |
| `Draining.DrainAffectsOneRack` | operator/pkg/psp/emm.go:646-668 | also counting never-bootstrapped pods, if a rack is down already or the unready pods on tainted nodes lie in one rack |
| `Draining.UnreadyRemovalAffectsSeveral` | operator/pkg/psp/emm.go:229-255 | and only then |
| `Draining.DegradedRemovesNoReadyPod` | operator/pkg/psp/emm.go:593-609 | with several racks down no ready pod is removed |
| `Draining.TwoRacksExample` | operator/pkg/psp/emm.go:367-382 | a node with pods of two racks going down takes both racks down |
| `Draining.UnlabelledExample` | operator/pkg/psp/emm.go:611-621 | a down pod without a rack label does not stop pods of another rack from being removed |
| `DrainRounds.RoundExact` | operator/pkg/psp/emm.go:482-743 | with bootstrapped pods down or on their way out in one rack, whatever the check does and the next one finds leaves them so exactly if the pods it may remove share a rack with them |
| `DrainRounds.RoundsKeepOneRack` | operator/pkg/psp/emm.go:482-743 | over any number of successive checks, with removed pods going and coming back and others appearing, they stay in one rack while each check meets that condition |
| `DrainRounds.OrderlyIsCareful` | operator/pkg/psp/emm.go:9-21 | it is met if no pod on its way out still reports ready, no node going down hosts pods of two racks, and every down pod has its rack label |
| `DrainRounds.ComesBack` | operator/pkg/psp/emm.go:348-365 | an evacuated pod may be back, in any condition, before the next check |
| `DrainRounds.TwoRacksInTwoRounds` | operator/pkg/psp/emm.go:367-382 | if the pods of a node taken down still report ready, the next check takes down a node of another rack |
| `Draining.FailedDrainWaits` | operator/pkg/psp/emm.go:485-507 | with an annotated pod the check removes nothing and ends the pass; the annotation stays while the node is tainted and goes when it is not |
| `FailedDrains.FailedDrainHoldsPass` | operator/pkg/psp/emm.go:164-211 | with an annotated pod no pass moves a label or removes a pod other than one found without its claim, the first such pod if calls succeed |
| `FailedDrains.MissingVolumeRemoved` | operator/pkg/reconciliation/reconcile_racks.go:2195-2241 | such a pod may be removed in spite of a failed drain |
| `FailedDrains.FailedDrainExact` | operator/pkg/psp/emm.go:164-211 | with an annotated pod passes remove nothing exactly if the datacenter is not admitted or no pod lacks its volume |
| `DrainRuns.FailedDrainNeverCarriedOut` | operator/pkg/psp/emm.go:164-211 | over any run, from the annotation on and while the node stays tainted, the annotation stays and no pass over the datacenter does anything |
| `Fleet.PassForeign` | operator/pkg/reconciliation/reconcile_racks.go:1692-1700 | a pass changes another datacenter's labels only by recording that a pod has started |
| `Fleet.StepKeepsSafe` | operator/pkg/reconciliation/reconcile_racks.go:2244-2372 | a pass over any datacenter, or any outside event, keeps the cluster safe |
| `Fleet.RunKeepsSafe` | operator/pkg/reconciliation/reconcile_racks.go:544-645 | in every interleaving at most one pod of the cluster is starting and at most one per datacenter leaving, the last of its rack and under ScalingDown |
| `Fleet.BringUpEnds` | operator/pkg/reconciliation/reconcile_racks.go:1689-1875 | over any run, passes that start or finish a pod are bounded by the initial work plus two per pod created |
| `Watch.Resource.UpdateWatcherNames` | operator/pkg/dynamicwatch/watch.go:146-175 | annotation and label are both there or both gone, and a change is reported exactly when one of them differs |
| `Watch.DynamicWatches.UpdateWatch` | operator/pkg/dynamicwatch/watch.go:261-328 | adds the caller to what it names and removes it from everything else labelled in its namespace, leaving the rest; with a resource missing it writes nothing, and with a failing call it takes effect on some items and reports failure |
| `Watch.DynamicWatches.FindWatchers` | operator/pkg/dynamicwatch/watch.go:334-337 | parses the annotation, reading a missing or broken one as empty |
| `Watch.UpdatedIndexed` | operator/pkg/dynamicwatch/watch.go:181-199 | one call keeps every item's annotation in step with the relation |
| `Watch.IndexRefinesRelation` | operator/pkg/dynamicwatch/watch.go:261-332 | after any sequence of calls the annotations agree with the watchers' latest completed calls |
| `Watch.RetryHeals` | operator/pkg/dynamicwatch/watch.go:308-328 | a call that failed half-way and is then completed has the effect of the call completed at once |
| `Watch.FoundExactly` | operator/pkg/dynamicwatch/watch.go:334-337 | what is found for a resource is exactly its watchers, each once, and the label is there exactly if there is one |

## Left out

- Kubernetes client, patches and caching: a write is atomic and either succeeds or leaves the API server's copy as it was; a copy in memory that a failed patch left changed is not modelled.
- The management API, TLS, secrets, users, services, endpoints, network policies and disruption budgets: calls that change nothing modelled here, or may fail.
- Creating StatefulSets and checking their labels: the model starts from one StatefulSet per rack; a pod template is its hash.
- CheckStatefulSetControllerCaughtUp: it runs before the StatefulSets are filled in, so it never holds a pass back; only the missing-claim fix it calls is modelled.
- CheckRackForceUpgrade: it bypasses the rollout order on purpose.
- checkPVCHealth: its call in the pass is commented out.
- Storage capacity before a decommission: a yes/no answer of the outside world, as are cluster health, clocks and endpoint data.
- Requeue delays, the quiet period and the cooldown: every result that ends a pass is one of three values.
- RangeInt, MergeMap and the plain set operations: Dafny's own collections stand for them.
- Pass.ReconcileAllRacks: the sequence of calls is written as a loop over a table of checks, without the force upgrade, the creation of StatefulSets and the repair of their labels.
- Cluster.Context.SetOperatorProgress: does not model the observed generation that is recorded together with Ready, because no check reads it.
- Status.UpdateCassandraNodeStatus: a host ID that is gained is any string, because the answer comes from the pod's own management API.
- Startup.StartCassandra: does not model the address handed to a replacing node's start call, only whether it can be found.
- Rollout.CheckRackPodTemplate: does not model the partition number of a canary upgrade, only that it touches the first rack alone.
- Watch.DynamicWatches.UpdateWatch: that a call crashes stands for the nil dereference in the branch for a missing resource.
- Watch.IndexRefinesRelation: assumes that watchers name resources of their own namespace, as datacenters do, and speaks of calls that complete or crash; a call that fails half-way is the subject of RetryHeals.
