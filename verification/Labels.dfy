/** How a check moves node-state labels: not at all, or one pod at a time. */
module Labels {
  import opened Racks
  import opened Model
  import opened Specs
  import opened Pass
  import opened Frames

  ghost predicate SameLabels(w: World, w': World) {
    && |w'.pods| == |w.pods|
    && forall i :: 0 <= i < |w.pods| ==> w'.pods[i].state == w.pods[i].state
  }

  ghost predicate OnlyRelabels(w: World, w': World, i: int, s: NodeState) {
    && 0 <= i < |w.pods| == |w'.pods| && w'.pods[i].state == s
    && forall j :: 0 <= j < |w.pods| && j != i ==> w'.pods[j].state == w.pods[j].state
  }

  /** The one label a check moved, with the reason it had. */
  ghost predicate Relabelled(c: Check, w: World, w': World, r: Result, i: int) {
    match c
    case Readiness =>
      && InDc(w, i) && IsStarted(w.pods[i])
      && (OnlyRelabels(w, w', i, Started) || OnlyRelabels(w, w', i, StartedNotReady))
    case StartingNodes => FirstStarting(w, i) && OnlyRelabels(w, w', i, Started) && r == Continue
    case OnePerRack => Opens(w, i) && OnlyRelabels(w, w', i, Starting) && r != Continue
    case AllNodes => FirstDc(w, i, NeedsStart) && OnlyRelabels(w, w', i, Starting) && r != Continue
    case DecommissionNodes => InDc(w, i) && OnlyRelabels(w, w', i, Decommissioning) && r != Continue
    case _ => false
  }

  lemma ReadinessLabels(w: World, w': World, r: Result)
    requires ReadinessSpec(w, w', r)
    ensures SameLabels(w, w') || exists i :: Relabelled(Readiness, w, w', r, i)
  {
    if w' != w {
      var i :| FirstDc(w, i, ReadinessChanged) && (w' == SetState(w, i, Started) || w' == SetState(w, i, StartedNotReady));
      assert Relabelled(Readiness, w, w', r, i);
    }
  }

  lemma StartingNodesLabels(w: World, w': World, r: Result)
    requires StartingNodesSpec(w, w', r)
    ensures SameLabels(w, w') || exists i :: Relabelled(StartingNodes, w, w', r, i)
  {
    if w' != w {
      var i :| FirstStarting(w, i) && w' == SetState(w, i, Started);
      assert Relabelled(StartingNodes, w, w', r, i);
    }
  }

  lemma StartLabels(w: World, w': World, i: int, asSeed: bool, r: Result)
    requires 0 <= i < |w.pods| && StartSpec(w, w', i, asSeed, r)
    ensures SameLabels(w, w') || OnlyRelabels(w, w', i, Starting)
    ensures r != Continue
  {
  }

  lemma OnePerRackLabels(w: World, w': World, r: Result)
    requires OnePerRackSpec(w, w', r)
    ensures SameLabels(w, w') || exists i :: Relabelled(OnePerRack, w, w', r, i)
  {
    if w' != w {
      var i :| Opens(w, i) && FirstOfRack(w, i) && StartSpec(w, w', i, MustSeed(w), r);
      StartLabels(w, w', i, MustSeed(w), r);
      assert SameLabels(w, w') || Relabelled(OnePerRack, w, w', r, i);
    }
  }

  lemma AllNodesLabels(w: World, w': World, r: Result)
    requires AllNodesSpec(w, w', r)
    ensures SameLabels(w, w') || exists i :: Relabelled(AllNodes, w, w', r, i)
  {
    if w' != w {
      var i :| FirstDc(w, i, NeedsStart) && StartSpec(w, w', i, false, r);
      StartLabels(w, w', i, false, r);
      assert SameLabels(w, w') || Relabelled(AllNodes, w, w', r, i);
    }
  }

  lemma DecommissionNodesLabels(w: World, w': World, r: Result)
    requires w.sts != [] && DecommissionNodesSpec(w, w', r)
    ensures SameLabels(w, w') || exists i :: Relabelled(DecommissionNodes, w, w', r, i)
  {
    if w'.pods != w.pods {
      var k :| FirstExcess(Replicas(w), k) && ShrinkSpec(w, w', k, r);
      var i :| FirstLastPod(w, i, k) && w' == SetState(Shrinking(w), i, Decommissioning);
      assert Relabelled(DecommissionNodes, w, w', r, i);
    }
  }

  /** Every check moves at most one label, and only in its own way. */
  lemma StepLabels(c: Check, w: World, w': World, r: Result)
    requires StepSpec(c, w, w', r)
    ensures SameLabels(w, w') || exists i :: Relabelled(c, w, w', r, i)
  {
    hide StepSpec, Relabelled;
    if !WritesStates(c) {
      StepKeeps(c, w, w', r);
    } else {
      WrittenLabels(c, w, w', r);
    }
  }

  lemma WrittenLabels(c: Check, w: World, w': World, r: Result)
    requires StepSpec(c, w, w', r) && WritesStates(c)
    ensures SameLabels(w, w') || exists i :: Relabelled(c, w, w', r, i)
  {
    hide Relabelled, ReadinessSpec, StartingNodesSpec, OnePerRackSpec, AllNodesSpec, DecommissionNodesSpec;
    if w' != w {
      match c
      case Readiness => ReadinessLabels(w, w', r);
      case StartingNodes => StartingNodesLabels(w, w', r);
      case OnePerRack => OnePerRackLabels(w, w', r);
      case AllNodes => AllNodesLabels(w, w', r);
      case DecommissionNodes => DecommissionNodesLabels(w, w', r);
    }
  }
}
