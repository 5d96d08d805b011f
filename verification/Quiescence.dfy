/** A datacenter that is as its spec wants it is left alone: a pass over it runs through every
    check and writes nothing. */
module Quiescence {
  import opened Conditions
  import opened Racks
  import Names
  import opened Lists
  import opened Model
  import opened Specs
  import opened EmmSpecs
  import opened Pass
  import opened Frames
  import opened Convergence
  import opened Rollout

  predicate QuietPod(p: PodView) {
    p.info.ready && p.info.mgmtUp && !p.info.pending && p.state == Started && p.failure.None?
  }

  ghost predicate QuietPods(w: World) {
    && (forall i :: InDc(w, i) ==> QuietPod(w.pods[i]))
    && (forall i :: 0 <= i < |w.pods| ==> !IsStarting(w.pods[i]) && w.pods[i].seed == SeedAfter(w, i))
    && EveryRackHasReady(w)
  }

  /** Nothing new is wanted of the datacenter: no node is to be replaced, no restart is asked for,
      and no node it runs on is to be drained. */
  ghost predicate NothingAsked(w: World) {
    && w.dc.replaceNodes == [] && !w.dc.restartRequested
    && (w.env.pspEnabled ==> NodesKnown(w) && Tainted(w) == {})
  }

  /** As specified, but that a restart may be under way. */
  ghost predicate Calm(w: World) {
    && WellFormed(w) && w.env.apiUp && w.env.healthy
    && !w.dc.spec.stopped && |w.dc.spec.racks| <= w.dc.spec.size
    && AsSpecified(w) && QuietPods(w) && NothingAsked(w)
  }

  ghost predicate AllRestarted(w: World) {
    forall i :: InDc(w, i) ==> w.pods[i].info.created >= w.dc.lastRestart
  }

  ghost predicate Quiet(w: World) {
    Calm(w) && AllRestarted(w)
  }

  // ----- Each check in turn -----

  lemma QuietHostIds(w: World, hostIds: map<string, string>)
    requires AllHostIdsKnown(w) && HostIdsRefreshed(w, hostIds)
    ensures hostIds == w.dc.hostIds
  {
    forall i | InDc(w, i) ensures w.pods[i].info.name in w.dc.hostIds {
      assert HostId(w.dc.hostIds, w.pods[i].info.name) != "";
    }
    assert forall n :: n in hostIds ==> hostIds[n] == HostId(w.dc.hostIds, n);
  }

  lemma QuietStatus(w: World, w': World, r: Result)
    requires w.env.apiUp && AllHostIdsKnown(w) && w.dc.replacements == [] && w.dc.replaceNodes == []
    requires UpdateStatusSpec(w, w', r)
    ensures w' == w && r == Continue
  {
    var hostIds :| HostIdsRefreshed(w, hostIds)
      && w' == w.(dc := Recorded(w.dc, hostIds, RemoveEach(w.dc.replacements, OverNames(w)), w.env.now));
    QuietHostIds(w, hostIds);
    assert RemoveEach([], OverNames(w)) == [];
  }

  lemma QuietEarly(c: Check, w: World, w': World, r: Result)
    requires Quiet(w) && Early(c) && EarlySpec(c, w, w', r)
    ensures w' == w && r == Continue
  {
    if c.UpdateStatus? {
      QuietStatus(w, w', r);
    } else if c.MissingPvc? {
      assert NoDc(w, LacksPvc);
    }
  }

  lemma {:induction false} NothingToGrow(sts: seq<StsView>, desired: seq<int>, n: nat)
    requires n <= |sts| == |desired| && forall k :: 0 <= k < |sts| ==> sts[k].replicas == desired[k]
    ensures GrowCount(sts, desired, n) == 0
    ensures Resized(sts, GrowTargets(sts, desired), |sts|) == sts
  {
    if n > 0 {
      NothingToGrow(sts, desired, n - 1);
    } else {
      var grown := Resized(sts, GrowTargets(sts, desired), |sts|);
      assert forall k :: 0 <= k < |sts| ==> grown[k] == sts[k];
    }
  }

  lemma QuietScale(w: World, w': World, r: Result, desired: seq<int>)
    requires w.env.apiUp && |w.sts| == |desired| && Replicas(w) == desired && ScaleSpec(w, w', r, desired)
    ensures w' == w && r == Continue
  {
    assert forall k :: 0 <= k < |w.sts| ==> w.sts[k].replicas == Replicas(w)[k];
    NothingToGrow(w.sts, desired, |w.sts|);
  }

  lemma QuietDrains(w: World, w': World, r: Result)
    requires w.env.apiUp && NothingAsked(w) && (forall i :: InDc(w, i) ==> QuietPod(w.pods[i]))
    requires EmmSpec(w, w', r)
    ensures w' == w && r == Continue
  {
    if w.env.pspEnabled {
      assert forall i :: !Failed(w, i) && !Stale(w, i) && !Down(w, i) && !Stranded(w, i);
      assert Evacuating(w) == {} && GoingDown(w) == {};
      assert forall i, nodes :: On(w, i, nodes) && nodes == {} ==> false;
      assert !Hosts(w, Tainted(w)) && !Hosts(w, Evacuating(w)) && !Hosts(w, GoingDown(w));
      assert DownRacks(w) == {};
    }
  }

  lemma QuietResizing(c: Check, w: World, w': World, r: Result)
    requires Quiet(w) && Resizes(c) && ResizingSpec(c, w, w', r)
    ensures w' == w && r == Continue
  {
    if c.Drains? {
      QuietDrains(w, w', r);
    } else if c.RackScale? {
      QuietScale(w, w', r, Split(Wanted(w.dc.spec), |w.dc.spec.racks|));
    }
  }

  lemma QuietSeeds(w: World, w': World, r: Result)
    requires w.env.apiUp && (forall i :: 0 <= i < |w.pods| ==> w.pods[i].seed == SeedAfter(w, i))
    requires SeedLabelsSpec(w, w', r)
    ensures w' == w && r == Continue
  {
    assert Reseeded(w).pods == w.pods;
  }

  lemma QuietRelabelling(c: Check, w: World, w': World, r: Result)
    requires Quiet(w) && Relabels(c) && RelabellingSpec(c, w, w', r)
    ensures w' == w && r == Continue
  {
    match c
    case Readiness => assert NoDc(w, ReadinessChanged);
    case StuckNodes => assert NoDc(w, IsStuck);
    case SeedLabels => QuietSeeds(w, w', r);
    case RefreshSeeds =>
    case StartingNodes =>
  }

  lemma QuietStarting(c: Check, w: World, w': World, r: Result)
    requires Quiet(w) && Starts(c) && StartingSpec(c, w, w', r)
    ensures w' == w && r == Continue
  {
    if c.OnePerRack? {
      assert forall i :: !Opens(w, i);
    } else if c.AllNodes? {
      assert NoDc(w, NeedsStart) && NoDc(w, MgmtDown);
    }
  }

  lemma QuietLate(c: Check, w: World, w': World, r: Result)
    requires Quiet(w) && Late(c) && LateSpec(c, w, w', r)
    ensures w' == w && r == Continue
  {
    if c.DecommissionNodes? {
      SplitBalanced(w.dc.spec.size, |w.dc.spec.racks|);
    }
  }

  lemma QuietStep(c: Check, w: World, w': World, r: Result)
    requires Quiet(w) && StepSpec(c, w, w', r)
    ensures w' == w && r == Continue
  {
    if Early(c) {
      QuietEarly(c, w, w', r);
    } else if Resizes(c) {
      QuietResizing(c, w, w', r);
    } else if Late(c) {
      QuietLate(c, w, w', r);
    } else if Relabels(c) {
      QuietRelabelling(c, w, w', r);
    } else {
      QuietStarting(c, w, w', r);
    }
  }

  // ----- A whole pass -----

  lemma {:induction false} QuietThroughout(k: nat, w0: World, w: World)
    requires Quiet(w0) && Reaches(k, w0, w)
    ensures w == w0
  {
    hide StepSpec, Calm, AllRestarted;
    if k > 0 {
      var m := Before(k, w0, w);
      QuietThroughout(k - 1, w0, m);
      QuietStep(CheckAt(k - 1), m, w, Continue);
    }
  }

  // ----- And there is such a pass -----

  lemma PassesEarly(c: Check, w: World)
    requires Calm(w) && Early(c)
    ensures EarlySpec(c, w, w, Continue)
  {
    if c.UpdateStatus? {
      KnownHostIds(w);
      assert RemoveEach([], OverNames(w)) == [];
      assert HostIdsRefreshed(w, w.dc.hostIds);
    } else if c.MissingPvc? {
      assert NoDc(w, LacksPvc);
    }
  }

  lemma KnownHostIds(w: World)
    requires AllHostIdsKnown(w)
    ensures HostIdsRefreshed(w, w.dc.hostIds)
  {
    forall i | InDc(w, i) ensures w.pods[i].info.name in w.dc.hostIds {
      assert HostId(w.dc.hostIds, w.pods[i].info.name) != "";
    }
  }

  lemma PassesDrains(w: World)
    requires NothingAsked(w) && (forall i :: InDc(w, i) ==> QuietPod(w.pods[i])) && Condition_(w, DcInitialized) == True
    ensures EmmSpec(w, w, Continue)
  {
    if w.env.pspEnabled {
      assert forall i :: !Failed(w, i) && !Stale(w, i) && !Down(w, i);
      assert Evacuating(w) == {} && GoingDown(w) == {};
      assert !Hosts(w, Tainted(w)) && !Hosts(w, Evacuating(w)) && !Hosts(w, GoingDown(w));
      assert DownRacks(w) == {};
      assert CarryOutSpec(w, w, "", Continue);
      assert RackGuardsSpec(w, w, "", Continue);
    }
  }

  lemma PassesResizing(c: Check, w: World)
    requires Calm(w) && Resizes(c)
    ensures ResizingSpec(c, w, w, Continue)
  {
    hide EmmSpec, ScaleSpec, Split, ActionsSettled, ReadySettled;
    if c.Drains? {
      CalmDrains(w);
    } else if c.RackScale? {
      PassesScale(w, Split(Wanted(w.dc.spec), |w.dc.spec.racks|));
    } else {
      assert Condition_(w, ScalingDown) != True by {
        CalmConditions(w);
      }
    }
  }

  lemma CalmDrains(w: World)
    requires Calm(w)
    ensures EmmSpec(w, w, Continue)
  {
    hide EmmSpec, NothingAsked, QuietPod, TemplatesCurrent, ActionsSettled;
    PassesDrains(w);
  }

  lemma CalmConditions(w: World)
    requires Calm(w)
    ensures Condition_(w, ScalingDown) != True
  {
    hide QuietPods, NothingAsked, TemplatesCurrent;
  }

  lemma PassesScale(w: World, desired: seq<int>)
    requires |w.sts| == |desired| && Replicas(w) == desired
    ensures ScaleSpec(w, w, Continue, desired)
  {
    assert forall k :: 0 <= k < |w.sts| ==> w.sts[k].replicas == Replicas(w)[k];
    NothingToGrow(w.sts, desired, |w.sts|);
  }

  lemma PassesRelabelling(c: Check, w: World)
    requires Calm(w) && Relabels(c)
    ensures RelabellingSpec(c, w, w, Continue)
  {
    match c
    case Readiness => assert NoDc(w, ReadinessChanged);
    case StuckNodes => assert NoDc(w, IsStuck);
    case SeedLabels => assert Reseeded(w).pods == w.pods;
    case RefreshSeeds =>
    case StartingNodes =>
  }

  lemma PassesStarting(c: Check, w: World)
    requires Calm(w) && Starts(c)
    ensures StartingSpec(c, w, w, Continue)
  {
    if c.OnePerRack? {
      assert forall i :: !Opens(w, i);
    } else if c.AllNodes? {
      assert NoDc(w, NeedsStart) && NoDc(w, MgmtDown);
    }
  }

  lemma PassesLate(c: Check, w: World)
    requires Calm(w) && Late(c) && (c.RestartPods? ==> AllRestarted(w))
    ensures LateSpec(c, w, w, Continue)
  {
    if c.DecommissionNodes? {
      SplitBalanced(w.dc.spec.size, |w.dc.spec.racks|);
    }
  }

  lemma Passes(c: Check, w: World)
    requires Calm(w) && (c.RestartPods? ==> AllRestarted(w))
    ensures StepSpec(c, w, w, Continue)
  {
    hide EarlySpec, ResizingSpec, RelabellingSpec, StartingSpec, LateSpec;
    if Early(c) {
      PassesEarly(c, w);
    } else if Resizes(c) {
      PassesResizing(c, w);
    } else if Late(c) {
      PassesLate(c, w);
    } else if Relabels(c) {
      PassesRelabelling(c, w);
    } else {
      PassesStarting(c, w);
    }
  }

  lemma {:induction false} PassesAll(k: nat, w: World)
    requires Calm(w) && (k <= 20 || AllRestarted(w))
    ensures Reaches(k, w, w)
  {
    hide StepSpec, Calm, AllRestarted;
    if k > 0 {
      PassesAll(k - 1, w);
      Passes(CheckAt(k - 1), w);
      ReachesNext(k - 1, w, w, w);
    }
  }

  /** From a converged state a pass runs to Ready and changes nothing at all, and there is no
      other way for a pass to go. */
  lemma ConvergedStaysPut(w0: World)
    requires Quiet(w0)
    ensures RunsThrough(w0, w0) && forall w' :: PassSpec(w0, w') ==> w' == w0
    ensures forall k, w', r :: !EndsAt(k, w0, w', r)
  {
    hide StepSpec, Reaches;
    PassesAll(CHECKS, w0);
    forall k, w', r ensures !EndsAt(k, w0, w', r) {
      if EndsAt(k, w0, w', r) {
        NeverEnds(k, w0, w', r);
      }
    }
    forall w' | PassSpec(w0, w') ensures w' == w0 {
      QuietThroughout(CHECKS, w0, w');
    }
  }

  lemma NeverEnds(k: nat, w0: World, w': World, r: Result)
    requires Quiet(w0) && k < CHECKS && StepSpecFrom(k, w0, w', r)
    ensures r == Continue
  {
    hide StepSpec, Reaches;
    var m :| Reaches(k, w0, m) && StepSpec(CheckAt(k), m, w', r);
    QuietThroughout(k, w0, m);
    QuietStep(CheckAt(k), m, w', r);
  }

  ghost predicate StepSpecFrom(k: nat, w0: World, w': World, r: Result) {
    exists m :: Reaches(k, w0, m) && StepSpec(CheckAt(k), m, w', r)
  }

  // ----- A converged datacenter -----

  /** Clearing the actions settles them, and making ready then settles the rest. */
  lemma ConditionsSettle(cs: seq<Condition>, stopped: bool, now: int)
    ensures ActionsSettled(Cleared(cs, stopped, now), stopped)
    ensures var b := MadeReady(Cleared(cs, stopped, now), now); ActionsSettled(b, stopped) && ReadySettled(b)
  {
    hide With, StatusOf, AllFalse;
    var c := Cleared(cs, stopped, now);
    forall k ensures StatusOf(c, k) == ClearedStatus(cs, stopped, k) {
      ClearedFor(cs, stopped, now, k);
    }
    var i := With(c, DcInitialized, True, now);
    forall k ensures StatusOf(i, k) == if k == DcInitialized then True else StatusOf(c, k) {
      WithStatus(c, DcInitialized, True, now, k);
    }
    var r := With(i, DcReady, True, now);
    forall k ensures StatusOf(r, k) == if k == DcReady then True else StatusOf(i, k) {
      WithStatus(i, DcReady, True, now, k);
    }
  }

  lemma ClearedFor(cs: seq<Condition>, stopped: bool, now: int, k: ConditionType)
    ensures StatusOf(Cleared(cs, stopped, now), k) == ClearedStatus(cs, stopped, k)
  {
    hide With, StatusOf, AllFalse;
    var a := if StatusOf(cs, ScalingUp) == True then With(cs, ScalingUp, False, now) else cs;
    var want := if stopped then True else False;
    var b := With(a, DcStopped, want, now);
    WithStatus(cs, ScalingUp, False, now, k);
    WithStatus(a, DcStopped, want, now, k);
    AllFalseStatus(b, ACTIONS, now, k);
    ActionMembers(k);
    WithStatus(AllFalse(b, ACTIONS, now), DcValid, True, now, k);
  }

  lemma {:induction false} AllFalseStatus(cs: seq<Condition>, kinds: seq<ConditionType>, now: int, k: ConditionType)
    ensures StatusOf(AllFalse(cs, kinds, now), k) == if k in kinds then False else StatusOf(cs, k)
    decreases |kinds|
  {
    hide With, StatusOf;
    if kinds != [] {
      WithStatus(cs, kinds[0], False, now, k);
      AllFalseStatus(With(cs, kinds[0], False, now), kinds[1..], now, k);
    }
  }

  /** One rack, one node, up and settled, but perhaps on its way out. */
  function Example(cs: seq<Condition>, terminating: bool, lastRestart: int): World {
    var info := PodInfo("c-dc-r-sts-0", "dc", "r", 0, "n", "10.0.0.1", 0, true, true, false, false, false, true, "n", false, terminating);
    World(Env(true, true, true, false, 0, [], map[]),
          [PodView(info, Started, true, None, false)],
          [StsView("r", StsStatus(1, 1, 1, 1, 1, 1), 1, 0)],
          DcView(Spec("c", "dc", ["r"], 1, false, 0, false, [0]), [], false, cs, map["c-dc-r-sts-0" := "h"], [], lastRestart, ProgressReady))
  }

  lemma ExampleQuiet(cs: seq<Condition>, terminating: bool, lastRestart: int)
    requires ActionsSettled(cs, false) && ReadySettled(cs)
    ensures Calm(Example(cs, terminating, lastRestart))
    ensures lastRestart <= 0 ==> Quiet(Example(cs, terminating, lastRestart))
  {
    hide ActionsSettled, ReadySettled;
    var w := Example(cs, terminating, lastRestart);
    assert InDc(w, 0) && RackHasReady(w, "r");
    assert Replicas(w) == [1] == Split(1, 1);
    assert w.pods == [w.pods[0]] && w.pods[..0] == [];
    assert CountIn(w.pods[..0], "dc", IsReady) == 0 && CountIn(w.pods[..0], "dc", IsStarted) == 0;
    assert CountDc(w, IsReady) == 1 && CountDc(w, IsStarted) == 1;
    assert ReadyBefore(w, 0) == {} by {
      Names.LessTrichotomy(w.pods[0].info.name, w.pods[0].info.name);
    }
    assert IndexOf(["r"], "r") == 0;
    assert SeedsInRack(w.dc.spec, 0) == 1;
    assert IsReadySeed(w, 0);
  }
}
