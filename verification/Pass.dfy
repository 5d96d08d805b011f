/** A whole reconcile pass: the checks in their order, each handing over to the next or ending
    the pass. */
module Pass {
  import opened Conditions
  import opened Racks
  import opened Model
  import opened Specs
  import opened EmmSpecs
  import opened Cluster
  import Status
  import Scaling
  import Emm
  import Startup
  import Rollout

  datatype Check =
    | RackInformation | InvalidState | MissingPvc | UpdateStatus | Secrets
    | DecommissioningNodes | StoppedState | Drains | RackScale
    | Readiness | StuckNodes | SeedLabels | RefreshSeeds | StartingNodes | OnePerRack
    | ClusterHealth | AllNodes | PendingReplacements | ReadyCounts
    | NodeStatuses | RestartPods | DisruptionBudget | DecommissionNodes
    | PodTemplate | PodLabelsAndUsers | ClearActions | InitializedAndReady | Finish

  const CHECKS: nat := 28

  function CheckAt(k: nat): Check {
    if k == 0 then RackInformation else if k == 1 then InvalidState else if k == 2 then MissingPvc
    else if k == 3 then UpdateStatus else if k == 4 then Secrets else if k == 5 then DecommissioningNodes
    else if k == 6 then StoppedState else if k == 7 then Drains else if k == 8 then RackScale
    else if k == 9 then Readiness else if k == 10 then StuckNodes else if k == 11 then SeedLabels
    else if k == 12 then RefreshSeeds else if k == 13 then StartingNodes else if k == 14 then OnePerRack
    else if k == 15 then ClusterHealth else if k == 16 then AllNodes else if k == 17 then PendingReplacements
    else if k == 18 then ReadyCounts else if k == 19 then NodeStatuses else if k == 20 then RestartPods
    else if k == 21 then DisruptionBudget else if k == 22 then DecommissionNodes else if k == 23 then PodTemplate
    else if k == 24 then PodLabelsAndUsers else if k == 25 then ClearActions else if k == 26 then InitializedAndReady
    else Finish
  }

  /** The checks of the datacenter's own status. */
  predicate Early(c: Check) {
    c.RackInformation? || c.InvalidState? || c.MissingPvc? || c.UpdateStatus? || c.Secrets?
  }

  /** The checks that stop, drain and resize before nodes are brought up. */
  predicate Resizes(c: Check) {
    c.DecommissioningNodes? || c.StoppedState? || c.Drains? || c.RackScale?
  }

  /** The checks that look after nodes already started. */
  predicate Relabels(c: Check) {
    c.Readiness? || c.StuckNodes? || c.SeedLabels? || c.RefreshSeeds? || c.StartingNodes?
  }

  /** The checks that start further nodes and wait for them. */
  predicate Starts(c: Check) {
    c.OnePerRack? || c.ClusterHealth? || c.AllNodes? || c.PendingReplacements? || c.ReadyCounts?
  }

  /** The checks once nodes are up. */
  predicate Late(c: Check) {
    c.NodeStatuses? || c.RestartPods? || c.DisruptionBudget? || c.DecommissionNodes? || c.PodTemplate?
    || c.PodLabelsAndUsers? || c.ClearActions? || c.InitializedAndReady? || c.Finish?
  }

  ghost predicate EarlySpec(c: Check, w: World, w': World, r: Result)
    requires Early(c)
  {
    match c
    case RackInformation => RackInformationSpec(w, w', r)
    case InvalidState => InvalidStateSpec(w, w', r)
    case MissingPvc => MissingPvcSpec(w, w', r)
    case UpdateStatus => UpdateStatusSpec(w, w', r)
    case Secrets => ExternalSpec(w, w', r)
  }

  ghost predicate ResizingSpec(c: Check, w: World, w': World, r: Result)
    requires Resizes(c) && WellFormed(w)
  {
    match c
    case DecommissioningNodes => DecommissioningSpec(w, w', r)
    case StoppedState => StoppedStateSpec(w, w', r)
    case Drains => EmmSpec(w, w', r)
    case RackScale => RackScaleSpec(w, w', r)
  }

  ghost predicate RelabellingSpec(c: Check, w: World, w': World, r: Result)
    requires Relabels(c)
  {
    match c
    case Readiness => ReadinessSpec(w, w', r)
    case StuckNodes => StuckSpec(w, w', r)
    case SeedLabels => SeedLabelsSpec(w, w', r)
    case RefreshSeeds => ExternalSpec(w, w', r)
    case StartingNodes => StartingNodesSpec(w, w', r)
  }

  ghost predicate StartingSpec(c: Check, w: World, w': World, r: Result)
    requires Starts(c)
  {
    match c
    case OnePerRack => OnePerRackSpec(w, w', r)
    case ClusterHealth => ClusterHealthSpec(w, w', r)
    case AllNodes => AllNodesSpec(w, w', r)
    case PendingReplacements => PendingReplacementsSpec(w, w', r)
    case ReadyCounts => ReadyCountsSpec(w, w', r)
  }

  ghost predicate LateSpec(c: Check, w: World, w': World, r: Result)
    requires Late(c) && WellFormed(w)
  {
    match c
    case NodeStatuses => NodeStatusesSpec(w, w', r)
    case RestartPods => RollingRestartSpec(w, w', r)
    case DisruptionBudget => ExternalSpec(w, w', r)
    case DecommissionNodes => DecommissionNodesSpec(w, w', r)
    case PodTemplate => PodTemplateSpec(w, w', r)
    case PodLabelsAndUsers => ExternalSpec(w, w', r)
    case ClearActions => ClearActionsSpec(w, w', r)
    case InitializedAndReady => InitializedSpec(w, w', r)
    case Finish => FinishSpec(w, w', r)
  }

  /** What check `c` may do. The checks that bring nodes up are skipped while the datacenter is
      stopped. */
  ghost predicate StepSpec(c: Check, w: World, w': World, r: Result) {
    && WellFormed(w)
    && if Early(c) then EarlySpec(c, w, w', r)
       else if Resizes(c) then ResizingSpec(c, w, w', r)
       else if Late(c) then LateSpec(c, w, w', r)
       else if w.dc.spec.stopped then w' == w && r == Continue
       else if Relabels(c) then RelabellingSpec(c, w, w', r)
       else StartingSpec(c, w, w', r)
  }

  /** The first `k` checks all handed over, taking the world from `w0` to `w`. */
  ghost predicate Reaches(k: nat, w0: World, w: World) {
    if k == 0 then w == w0
    else
      var j := k - 1;
      exists m :: Reaches(j, w0, m) && StepSpec(CheckAt(j), m, w, Continue)
  }

  /** The pass ended at check `k`. */
  ghost predicate EndsAt(k: nat, w0: World, w': World, r: Result) {
    k < CHECKS && r != Continue && exists m :: Reaches(k, w0, m) && StepSpec(CheckAt(k), m, w', r)
  }

  /** The pass ran through: the datacenter was reported ready. */
  ghost predicate RunsThrough(w0: World, w': World) {
    Reaches(CHECKS, w0, w')
  }

  ghost predicate PassSpec(w0: World, w': World) {
    RunsThrough(w0, w') || exists k, r :: EndsAt(k, w0, w', r)
  }

  // ----- The pass as a program -----

  method External(rc: Context) returns (r: Result)
    ensures ExternalSpec(rc.View(), rc.View(), r)
  {
    var ok := rc.Call();
    r := if ok then Continue else Error;
  }

  method RunEarly(rc: Context, c: Check) returns (r: Result)
    requires rc.Valid() && Early(c)
    modifies rc.dc, rc.clusterPods
    ensures EarlySpec(c, old(rc.View()), rc.View(), r)
    ensures c.RackInformation? && r == Continue ==> |rc.dc.spec.racks| <= rc.dc.spec.size
  {
    match c
    case RackInformation =>
      var enough, info := CalculateRackInformation(rc.dc.spec.racks, rc.dc.spec.size, rc.dc.spec.stopped);
      r := if enough then Continue else Error;
    case InvalidState => r := if StatusOf(rc.dc.conditions, DcValid) == False then Error else Continue;
    case MissingPvc => r := Status.FixMissingPvc(rc);
    case UpdateStatus => r := Status.UpdateStatus(rc);
    case Secrets => r := External(rc);
  }

  method RunResizing(rc: Context, c: Check) returns (r: Result)
    requires rc.Valid() && Resizes(c) && WellFormed(rc.View())
    modifies rc.dc, rc.clusterPods, rc.sts
    ensures ResizingSpec(c, old(rc.View()), rc.View(), r)
  {
    match c
    case DecommissioningNodes => r := Scaling.CheckDecommissioningNodes(rc);
    case StoppedState => r := Scaling.CheckRackStoppedState(rc);
    case Drains => r := Emm.CheckEmm(rc);
    case RackScale => r := Scaling.CheckRackScale(rc);
  }

  /** `seeds` is the number of ready seeds found on the way. */
  method RunRelabelling(rc: Context, c: Check, seeds: nat) returns (r: Result, seeds': nat)
    requires rc.Valid() && Relabels(c) && !rc.dc.spec.stopped && |rc.dc.spec.racks| <= rc.dc.spec.size
    modifies rc.clusterPods
    ensures RelabellingSpec(c, old(rc.View()), rc.View(), r)
    ensures if c.SeedLabels? then r == Continue ==> (seeds' > 0 <==> HasReadySeed(old(rc.View()))) else seeds' == seeds
  {
    seeds' := seeds;
    match c
    case Readiness => r := Startup.FindStartedNotReadyNodes(rc);
    case StuckNodes => r := Startup.DeleteStuckNodes(rc);
    case SeedLabels => seeds', r := Startup.CheckSeedLabels(rc);
    case RefreshSeeds => r := Startup.RefreshSeeds(rc);
    case StartingNodes => r := Startup.FindStartingNodes(rc);
  }

  method RunStarting(rc: Context, c: Check, seeds: nat) returns (r: Result)
    requires rc.Valid() && Starts(c)
    requires c.OnePerRack? ==> (seeds > 0 <==> HasReadySeed(rc.View()))
    modifies rc.clusterPods
    ensures StartingSpec(c, old(rc.View()), rc.View(), r)
  {
    match c
    case OnePerRack =>
      var waiting, ok := Startup.StartOneNodePerRack(rc, seeds);
      r := if !ok then Error else if waiting != "" then Requeue else Continue;
    case ClusterHealth => r := if rc.env.healthy then Continue else Requeue;
    case AllNodes =>
      var needsMore, ok := Startup.StartAllNodes(rc);
      r := if !ok then Error else if needsMore then Requeue else Continue;
    case PendingReplacements => r := if rc.dc.replacements == [] then Continue else Requeue;
    case ReadyCounts =>
      var ready, started := Startup.CountReadyAndStarted(rc);
      r := if rc.dc.spec.size <= ready && rc.dc.spec.size <= started then Continue else Error;
  }

  method RunLate(rc: Context, c: Check) returns (r: Result)
    requires rc.Valid() && Late(c) && WellFormed(rc.View())
    modifies rc.dc, rc.clusterPods, rc.sts
    ensures LateSpec(c, old(rc.View()), rc.View(), r)
  {
    match c
    case NodeStatuses => r := Status.CheckCassandraNodeStatuses(rc);
    case RestartPods => r := Rollout.CheckRollingRestart(rc);
    case DisruptionBudget => r := External(rc);
    case DecommissionNodes => r := Scaling.DecommissionNodes(rc);
    case PodTemplate => r := Rollout.CheckRackPodTemplate(rc);
    case PodLabelsAndUsers => r := External(rc);
    case ClearActions => r := Rollout.CheckClearActionConditions(rc);
    case InitializedAndReady => r := Rollout.CheckConditionInitializedAndReady(rc);
    case Finish => r := Rollout.Finish(rc);
  }

  /** Between finding the ready seeds and using their number, no pod's readiness changes. */
  lemma KeepsSeeds(c: Check, w: World, w': World, r: Result)
    requires StepSpec(c, w, w', r) && (c.SeedLabels? || c.RefreshSeeds? || c.StartingNodes?)
    ensures HasReadySeed(w') <==> HasReadySeed(w)
  {
    SameSeeds(w, w');
  }

  lemma SameSeeds(w: World, w': World)
    requires w'.dc.spec == w.dc.spec && |w'.pods| == |w.pods|
    requires forall i :: 0 <= i < |w.pods| ==> w'.pods[i].info == w.pods[i].info
    ensures HasReadySeed(w') <==> HasReadySeed(w)
  {
    forall i | 0 <= i < |w.pods| ensures ReadyBefore(w', i) == ReadyBefore(w, i) {
    }
    if i :| IsReadySeed(w, i) {
      assert IsReadySeed(w', i);
    }
    if i :| IsReadySeed(w', i) {
      assert IsReadySeed(w, i);
    }
  }

  method RunCheck(rc: Context, k: nat, seeds: nat) returns (r: Result, seeds': nat)
    requires rc.Valid() && k < CHECKS && (k > 0 ==> |rc.dc.spec.racks| <= rc.dc.spec.size)
    requires 11 < k <= 14 && !rc.dc.spec.stopped ==> (seeds > 0 <==> HasReadySeed(rc.View()))
    modifies rc.dc, rc.clusterPods, rc.sts
    ensures StepSpec(CheckAt(k), old(rc.View()), rc.View(), r)
    ensures r == Continue ==> |rc.dc.spec.racks| <= rc.dc.spec.size
    ensures r == Continue && 11 <= k < 14 && !rc.dc.spec.stopped ==> (seeds' > 0 <==> HasReadySeed(rc.View()))
  {
    hide EarlySpec, ResizingSpec, RelabellingSpec, StartingSpec, LateSpec, HasReadySeed;
    ghost var w := rc.View();
    rc.ViewWellFormed();
    var c := CheckAt(k);
    seeds' := seeds;
    if Early(c) {
      r := RunEarly(rc, c);
    } else if Resizes(c) {
      r := RunResizing(rc, c);
    } else if Late(c) {
      r := RunLate(rc, c);
    } else if rc.dc.spec.stopped {
      r := Continue;
    } else if Relabels(c) {
      r, seeds' := RunRelabelling(rc, c, seeds);
      if 11 <= k < 14 {
        KeepsSeeds(c, w, rc.View(), r);
      }
    } else {
      r := RunStarting(rc, c, seeds);
    }
  }

  lemma ReachesNext(k: nat, w0: World, m: World, w: World)
    requires Reaches(k, w0, m) && StepSpec(CheckAt(k), m, w, Continue)
    ensures Reaches(k + 1, w0, w)
  {
  }

  /** One reconcile pass over a datacenter: the checks in order, up to the first that does not
      hand over. `ready` tells that the pass ran through. */
  method ReconcileAllRacks(rc: Context) returns (ready: bool, r: Result)
    requires rc.Valid()
    modifies rc.dc, rc.clusterPods, rc.sts
    ensures PassSpec(old(rc.View()), rc.View())
    ensures ready ==> r == Done && RunsThrough(old(rc.View()), rc.View())
    ensures !ready ==> exists k :: EndsAt(k, old(rc.View()), rc.View(), r)
  {
    hide StepSpec;
    ghost var w0 := rc.View();
    var seeds := 0;
    for k := 0 to CHECKS
      invariant Reaches(k, w0, rc.View())
      invariant k > 0 ==> |rc.dc.spec.racks| <= rc.dc.spec.size
      invariant 11 < k <= 14 && !rc.dc.spec.stopped ==> (seeds > 0 <==> HasReadySeed(rc.View()))
    {
      ghost var m := rc.View();
      r, seeds := RunCheck(rc, k, seeds);
      if r != Continue {
        assert EndsAt(k, w0, rc.View(), r);
        return false, r;
      }
      ReachesNext(k, w0, m, rc.View());
    }
    return true, Done;
  }
}
