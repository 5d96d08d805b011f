/** Which check writes which part of the world, and what no check ever touches. */
module Frames {
  import opened Conditions
  import opened Racks
  import opened Names
  import opened Model
  import opened Specs
  import opened EmmSpecs
  import opened Pass

  predicate WritesStates(c: Check) {
    c.Readiness? || c.StartingNodes? || c.OnePerRack? || c.AllNodes? || c.DecommissionNodes?
  }

  predicate WritesSeeds(c: Check) { c.SeedLabels? || c.OnePerRack? }

  predicate Removes(c: Check) { c.MissingPvc? || c.Drains? || c.StuckNodes? || c.RestartPods? }

  predicate WritesSts(c: Check) {
    c.DecommissioningNodes? || c.StoppedState? || c.RackScale? || c.PodTemplate?
  }

  predicate WritesConditions(c: Check) {
    c.UpdateStatus? || WritesSts(c) || c.RestartPods? || c.DecommissionNodes? || c.ClearActions? || c.InitializedAndReady?
  }

  predicate WritesProgress(c: Check) { WritesSts(c) || c.DecommissionNodes? || c.Finish? }

  /** What a check may change of one pod. */
  predicate KeepsPod(c: Check, p: PodView, p': PodView) {
    && p'.info == p.info
    && (WritesStates(c) || p'.state == p.state)
    && (WritesSeeds(c) || p'.seed == p.seed)
    && (Removes(c) || p'.removed == p.removed)
    && (c.Drains? || p'.failure == p.failure)
  }

  predicate KeepsDc(c: Check, d: DcView, d': DcView) {
    && d'.spec == d.spec
    && (WritesConditions(c) || d'.conditions == d.conditions)
    && (WritesProgress(c) || d'.progress == d.progress)
    && (c.UpdateStatus? || d'.replacements == d.replacements)
    && (c.UpdateStatus? || c.Drains? || d'.replaceNodes == d.replaceNodes)
    && (c.UpdateStatus? || c.DecommissioningNodes? || d'.hostIds == d.hostIds)
    && (c.RestartPods? || (d'.lastRestart == d.lastRestart && d'.restartRequested == d.restartRequested))
  }

  predicate KeepsSts(c: Check, s: StsView, s': StsView) {
    && s'.rack == s.rack && s'.status == s.status
    && (c.PodTemplate? || s'.hash == s.hash)
    && ((WritesSts(c) && !c.PodTemplate?) || s'.replicas == s.replicas)
  }

  ghost predicate Keeps(c: Check, w: World, w': World) {
    && w'.env == w.env && KeepsDc(c, w.dc, w'.dc)
    && |w'.pods| == |w.pods| && |w'.sts| == |w.sts|
    && (forall i :: 0 <= i < |w.pods| ==> KeepsPod(c, w.pods[i], w'.pods[i]))
    && (forall k :: 0 <= k < |w.sts| ==> KeepsSts(c, w.sts[k], w'.sts[k]))
  }

  // ----- One lemma per check that writes -----

  lemma Unchanged(c: Check, w: World)
    ensures Keeps(c, w, w)
  {
  }

  lemma MissingPvcKeeps(w: World, w': World, r: Result)
    requires MissingPvcSpec(w, w', r)
    ensures Keeps(MissingPvc, w, w')
  {
  }

  lemma UpdateStatusKeeps(w: World, w': World, r: Result)
    requires UpdateStatusSpec(w, w', r)
    ensures Keeps(UpdateStatus, w, w')
  {
  }

  lemma CleanUpKeeps(w: World, w': World, i: int, r: Result)
    requires 0 <= i < |w.pods| && CleanUpSpec(w, w', i, r)
    ensures Keeps(DecommissioningNodes, w, w')
  {
    hide HasSuffix, LastPodSuffix, StsIndex;
  }

  lemma DecommissioningKeeps(w: World, w': World, r: Result)
    requires DecommissioningSpec(w, w', r)
    ensures Keeps(DecommissioningNodes, w, w')
  {
    if w' != w && !NoDc(w, IsDecommissioning) {
      var i :| FirstDc(w, i, IsDecommissioning) && CleanUpSpec(w, w', i, r);
      CleanUpKeeps(w, w', i, r);
    }
  }

  lemma StoppedStateKeeps(w: World, w': World, r: Result)
    requires StoppedStateSpec(w, w', r)
    ensures Keeps(StoppedState, w, w')
  {
  }

  lemma RackScaleKeeps(w: World, w': World, r: Result, desired: seq<int>)
    requires |w.sts| == |desired| && ScaleSpec(w, w', r, desired)
    ensures Keeps(RackScale, w, w')
  {
  }

  lemma ReadinessKeeps(w: World, w': World, r: Result)
    requires ReadinessSpec(w, w', r)
    ensures Keeps(Readiness, w, w')
  {
  }

  lemma StuckKeeps(w: World, w': World, r: Result)
    requires StuckSpec(w, w', r)
    ensures Keeps(StuckNodes, w, w')
  {
  }

  lemma SeedLabelsKeeps(w: World, w': World, r: Result)
    requires SeedLabelsSpec(w, w', r)
    ensures Keeps(SeedLabels, w, w')
  {
  }

  lemma StartingNodesKeeps(w: World, w': World, r: Result)
    requires StartingNodesSpec(w, w', r)
    ensures Keeps(StartingNodes, w, w')
  {
  }

  lemma StartKeeps(w: World, w': World, i: int, asSeed: bool, r: Result)
    requires 0 <= i < |w.pods| && StartSpec(w, w', i, asSeed, r)
    ensures Keeps(OnePerRack, w, w') && (!asSeed ==> Keeps(AllNodes, w, w'))
  {
  }

  lemma OnePerRackKeeps(w: World, w': World, r: Result)
    requires OnePerRackSpec(w, w', r)
    ensures Keeps(OnePerRack, w, w')
  {
    if w' != w {
      var i :| Opens(w, i) && FirstOfRack(w, i) && StartSpec(w, w', i, MustSeed(w), r);
      StartKeeps(w, w', i, MustSeed(w), r);
    }
  }

  lemma AllNodesKeeps(w: World, w': World, r: Result)
    requires AllNodesSpec(w, w', r)
    ensures Keeps(AllNodes, w, w')
  {
    if w' != w {
      var i :| FirstDc(w, i, NeedsStart) && StartSpec(w, w', i, false, r);
      StartKeeps(w, w', i, false, r);
    }
  }

  lemma RollingRestartKeeps(w: World, w': World, r: Result)
    requires RollingRestartSpec(w, w', r)
    ensures Keeps(RestartPods, w, w')
  {
    hide With;
  }

  lemma ShrinkKeeps(w: World, w': World, k: int, r: Result)
    requires 0 <= k < |w.sts| && ShrinkSpec(w, w', k, r)
    ensures Keeps(DecommissionNodes, w, w')
  {
    hide With, MatchesLast;
  }

  lemma DecommissionNodesKeeps(w: World, w': World, r: Result)
    requires w.sts != [] && DecommissionNodesSpec(w, w', r)
    ensures Keeps(DecommissionNodes, w, w')
  {
    if w' != w {
      var k :| FirstExcess(Replicas(w), k) && ShrinkSpec(w, w', k, r);
      ShrinkKeeps(w, w', k, r);
    }
  }

  lemma TemplateWriteKeeps(w: World, w': World, k: int, r: Result)
    requires 0 <= k < |w.sts| && |w.dc.spec.hashes| == |w.sts| && TemplateWriteSpec(w, w', k, r)
    ensures Keeps(PodTemplate, w, w')
  {
  }

  lemma PodTemplateKeeps(w: World, w': World, r: Result)
    requires |w.dc.spec.hashes| == |w.sts| && PodTemplateSpec(w, w', r)
    ensures Keeps(PodTemplate, w, w')
  {
    if w' != w {
      var k :| FirstUnsettled(w, k) && TemplateWriteSpec(w, w', k, r);
      TemplateWriteKeeps(w, w', k, r);
    }
  }

  // ----- Draining -----

  lemma EditKeeps(w: World, w': World, sel: set<int>, e: Edit, r: Result)
    requires EditSpec(w, w', sel, e, r)
    ensures Keeps(Drains, w, w')
  {
  }

  lemma ReplaceKeeps(w: World, w': World, r: Result)
    requires ReplaceSpec(w, w', r)
    ensures Keeps(Drains, w, w')
  {
    EditKeeps(w, w'.(dc := w.dc), StrandedPods(w), Delete, r);
  }

  lemma CarryOutKeeps(w: World, w': World, downRack: string, r: Result)
    requires CarryOutSpec(w, w', downRack, r)
    ensures Keeps(Drains, w, w')
  {
    if w' == w {
    } else if downRack != "" {
      ReplaceKeeps(w, w', r);
    } else if Hosts(w, Evacuating(w)) {
      var k :| On(w, k, Evacuating(w)) && EditSpec(w, w', {k}, Delete, r);
      EditKeeps(w, w', {k}, Delete, r);
    } else {
      var n :| n in GoingDown(w) && Hosts(w, {n}) && EditSpec(w, w', PodsOn(w, {n}), Delete, r);
      EditKeeps(w, w', PodsOn(w, {n}), Delete, r);
    }
  }

  lemma RackGuardsKeep(w: World, w': World, downRack: string, r: Result)
    requires RackGuardsSpec(w, w', downRack, r)
    ensures Keeps(Drains, w, w')
  {
    if downRack != "" && Hosts(w, Outside(w, downRack)) {
      EditKeeps(w, w', PodsOn(w, Outside(w, downRack)), Fail(TOO_MANY_EXISTING_FAILURES), r);
    } else if exists i :: UnreadyOn(w, i, Tainted(w)) {
      EditKeeps(w, w', UnreadyPodsOn(w, Tainted(w)), Delete, r);
    } else {
      CarryOutKeeps(w, w', downRack, r);
    }
  }

  lemma FailGuardsKeep(w: World, w': World, r: Result)
    requires FailGuardsSpec(w, w', r)
    ensures Keeps(Drains, w, w')
  {
    if TooFewNodes(w) && Hosts(w, Tainted(w)) {
      EditKeeps(w, w', PodsOn(w, Tainted(w)), Fail(NOT_ENOUGH_RESOURCES), r);
    } else if Condition_(w, DcStopped) == True && Hosts(w, Evacuating(w)) {
      EditKeeps(w, w', PodsOn(w, Evacuating(w)), Fail(GENERIC_FAILURE), r);
    } else {
      DownGuardsKeep(w, w', r);
    }
  }

  lemma DownGuardsKeep(w: World, w': World, r: Result)
    requires DownGuardsSpec(w, w', r)
    ensures Keeps(Drains, w, w')
  {
    if |DownRacks(w)| > 1 && Hosts(w, Tainted(w)) {
      EditKeeps(w, w', PodsOn(w, Tainted(w)), Fail(TOO_MANY_EXISTING_FAILURES), r);
    } else {
      var rack :| IsDownRack(w, rack) && RackGuardsSpec(w, w', rack, r);
      RackGuardsKeep(w, w', rack, r);
    }
  }

  lemma EmmKeeps(w: World, w': World, r: Result)
    requires EmmSpec(w, w', r)
    ensures Keeps(Drains, w, w')
  {
    if w' == w {
      Unchanged(Drains, w);
    } else if exists i :: Stale(w, i) {
      EditKeeps(w, w', StalePods(w), Clean, r);
    } else {
      FailGuardsKeep(w, w', r);
    }
  }

  // ----- Every check -----

  lemma EarlyKeeps(c: Check, w: World, w': World, r: Result)
    requires Early(c) && EarlySpec(c, w, w', r)
    ensures Keeps(c, w, w')
  {
    hide Keeps, MissingPvcSpec, UpdateStatusSpec;
    match c
    case MissingPvc => MissingPvcKeeps(w, w', r);
    case UpdateStatus => UpdateStatusKeeps(w, w', r);
    case _ => Unchanged(c, w);
  }

  lemma ResizingKeeps(c: Check, w: World, w': World, r: Result)
    requires Resizes(c) && WellFormed(w) && ResizingSpec(c, w, w', r)
    ensures Keeps(c, w, w')
  {
    hide Keeps, DecommissioningSpec, StoppedStateSpec, EmmSpec, ScaleSpec;
    match c
    case DecommissioningNodes => DecommissioningKeeps(w, w', r);
    case StoppedState => StoppedStateKeeps(w, w', r);
    case Drains => EmmKeeps(w, w', r);
    case RackScale => RackScaleKeeps(w, w', r, Split(Wanted(w.dc.spec), |w.dc.spec.racks|));
  }

  lemma RelabellingKeeps(c: Check, w: World, w': World, r: Result)
    requires Relabels(c) && RelabellingSpec(c, w, w', r)
    ensures Keeps(c, w, w')
  {
    hide Keeps, ReadinessSpec, StuckSpec, SeedLabelsSpec, StartingNodesSpec;
    match c
    case Readiness => ReadinessKeeps(w, w', r);
    case StuckNodes => StuckKeeps(w, w', r);
    case SeedLabels => SeedLabelsKeeps(w, w', r);
    case StartingNodes => StartingNodesKeeps(w, w', r);
    case RefreshSeeds => Unchanged(c, w);
  }

  lemma StartingKeeps(c: Check, w: World, w': World, r: Result)
    requires Starts(c) && StartingSpec(c, w, w', r)
    ensures Keeps(c, w, w')
  {
    hide Keeps, OnePerRackSpec, AllNodesSpec;
    match c
    case OnePerRack => OnePerRackKeeps(w, w', r);
    case AllNodes => AllNodesKeeps(w, w', r);
    case _ => Unchanged(c, w);
  }

  lemma LateKeeps(c: Check, w: World, w': World, r: Result)
    requires Late(c) && WellFormed(w) && LateSpec(c, w, w', r)
    ensures Keeps(c, w, w')
  {
    hide Keeps, RollingRestartSpec, DecommissionNodesSpec, PodTemplateSpec, ClearActionsSpec, InitializedSpec, FinishSpec;
    match c
    case RestartPods => RollingRestartKeeps(w, w', r);
    case DecommissionNodes => DecommissionNodesKeeps(w, w', r);
    case PodTemplate => PodTemplateKeeps(w, w', r);
    case ClearActions => ClearActionsKeeps(w, w', r);
    case InitializedAndReady => InitializedKeeps(w, w', r);
    case Finish => FinishKeeps(w, w', r);
    case _ => Unchanged(c, w);
  }

  lemma ClearActionsKeeps(w: World, w': World, r: Result)
    requires ClearActionsSpec(w, w', r)
    ensures Keeps(ClearActions, w, w')
  {
    hide ActionsSettled, Cleared;
  }

  lemma InitializedKeeps(w: World, w': World, r: Result)
    requires InitializedSpec(w, w', r)
    ensures Keeps(InitializedAndReady, w, w')
  {
    hide ReadySettled, MadeReady;
  }

  lemma FinishKeeps(w: World, w': World, r: Result)
    requires FinishSpec(w, w', r)
    ensures Keeps(Finish, w, w')
  {
  }

  lemma StepKeeps(c: Check, w: World, w': World, r: Result)
    requires StepSpec(c, w, w', r)
    ensures Keeps(c, w, w')
  {
    hide Keeps, EarlySpec, ResizingSpec, RelabellingSpec, StartingSpec, LateSpec;
    if Early(c) {
      EarlyKeeps(c, w, w', r);
    } else if Resizes(c) {
      ResizingKeeps(c, w, w', r);
    } else if Late(c) {
      LateKeeps(c, w, w', r);
    } else if w.dc.spec.stopped {
      Unchanged(c, w);
    } else if Relabels(c) {
      RelabellingKeeps(c, w, w', r);
    } else {
      StartingKeeps(c, w, w', r);
    }
  }

  /** Same outside world and spec, same pods and StatefulSets up to what a pass may write. */
  ghost predicate SameShape(w: World, w': World) {
    && w'.env == w.env && w'.dc.spec == w.dc.spec
    && |w'.pods| == |w.pods| && |w'.sts| == |w.sts|
    && (forall i :: 0 <= i < |w.pods| ==> w'.pods[i].info == w.pods[i].info)
    && (forall k :: 0 <= k < |w.sts| ==> w'.sts[k].rack == w.sts[k].rack && w'.sts[k].status == w.sts[k].status)
  }

  lemma KeepsShape(c: Check, w: World, w': World)
    requires Keeps(c, w, w')
    ensures SameShape(w, w') && (WellFormed(w) ==> WellFormed(w'))
  {
  }

  lemma StepShape(c: Check, w: World, w': World, r: Result)
    requires StepSpec(c, w, w', r)
    ensures SameShape(w, w') && WellFormed(w')
  {
    StepKeeps(c, w, w', r);
    KeepsShape(c, w, w');
  }

  lemma ShapeTransitive(a: World, b: World, c: World)
    requires SameShape(a, b) && SameShape(b, c)
    ensures SameShape(a, c)
  {
  }

  /** The world before the last check that handed over. */
  lemma Before(k: nat, w0: World, w: World) returns (m: World)
    requires k > 0 && Reaches(k, w0, w)
    ensures Reaches(k - 1, w0, m) && StepSpec(CheckAt(k - 1), m, w, Continue)
  {
    var j := k - 1;
    m :| Reaches(j, w0, m) && StepSpec(CheckAt(j), m, w, Continue);
  }

  lemma {:induction false} ReachShape(k: nat, w0: World, w: World)
    requires Reaches(k, w0, w)
    ensures SameShape(w0, w) && (WellFormed(w0) ==> WellFormed(w))
  {
    hide StepSpec;
    if k > 0 {
      var j := k - 1;
      var m := Before(k, w0, w);
      ReachShape(j, w0, m);
      StepShape(CheckAt(j), m, w, Continue);
      ShapeTransitive(w0, m, w);
    }
  }

  /** Where a pass stood when it ended: at check `k` in world `m`, or past the last check. */
  lemma PassEnd(w0: World, w': World) returns (k: nat, m: World, r: Result)
    requires PassSpec(w0, w')
    ensures k <= CHECKS && Reaches(k, w0, m)
    ensures if k == CHECKS then m == w' else r != Continue && StepSpec(CheckAt(k), m, w', r)
  {
    if RunsThrough(w0, w') {
      k, m, r := CHECKS, w', Done;
    } else {
      k, r :| EndsAt(k, w0, w', r);
      m :| Reaches(k, w0, m) && StepSpec(CheckAt(k), m, w', r);
    }
  }

  lemma PassShape(w0: World, w': World)
    requires PassSpec(w0, w')
    ensures SameShape(w0, w') && (WellFormed(w0) ==> WellFormed(w'))
  {
    hide StepSpec;
    var k, m, r := PassEnd(w0, w');
    ReachShape(k, w0, m);
    if k < CHECKS {
      StepShape(CheckAt(k), m, w', r);
      ShapeTransitive(w0, m, w');
    }
  }
}
