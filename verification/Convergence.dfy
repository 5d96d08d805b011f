/** A pass that runs through has found the datacenter as its spec wants it. */
module Convergence {
  import opened Racks
  import opened Model
  import opened Specs
  import opened Pass
  import opened Frames
  import opened Decommission
  import opened BringUp
  import opened Resizing

  // ----- Ready means converged -----

  ghost predicate TemplatesCurrent(w: World)
    requires |w.dc.spec.hashes| == |w.sts|
  {
    forall k :: 0 <= k < RolloutRacks(w) ==> UpToDate(w, k) && Settled(w.sts[k])
  }

  /** What the checks behind position `k` have established. */
  ghost predicate Established(k: nat, w: World)
    requires |w.dc.spec.hashes| == |w.sts|
  {
    && (k >= 18 && !w.dc.spec.stopped ==> w.dc.replacements == [])
    && (k >= 19 && !w.dc.spec.stopped ==> EnoughUp(w))
    && (k >= 20 ==> AllHostIdsKnown(w))
    && (k >= 23 ==> Sum(Replicas(w)) <= w.dc.spec.size)
    && (k >= 24 ==> TemplatesCurrent(w))
    && (k >= 26 ==> ActionsSettled(w.dc.conditions, w.dc.spec.stopped))
    && (k >= 27 ==> ReadySettled(w.dc.conditions))
    && (k >= 28 ==> w.dc.progress == ProgressReady)
  }

  lemma SettlingStarts(c: Check, w: World, w': World)
    requires StepSpec(c, w, w', Continue) && (c.PendingReplacements? || c.ReadyCounts?)
    ensures w' == w
    ensures c.PendingReplacements? && !w.dc.spec.stopped ==> w.dc.replacements == []
    ensures c.ReadyCounts? && !w.dc.spec.stopped ==> EnoughUp(w)
  {
  }

  lemma SettlingLate(c: Check, w: World, w': World)
    requires StepSpec(c, w, w', Continue) && Late(c)
    ensures w'.env == w.env && w'.pods == w.pods && w'.sts == w.sts
    ensures !c.RestartPods? && !c.Finish? ==> w' == w
    ensures c.RestartPods? ==> w' == RestartBegun(w)
    ensures c.Finish? ==> w' == SetProgress(w, ProgressReady)
  {
  }

  lemma LateFinds(c: Check, w: World, w': World)
    requires StepSpec(c, w, w', Continue) && Late(c)
    ensures c.NodeStatuses? ==> AllHostIdsKnown(w)
    ensures c.DecommissionNodes? ==> Sum(Replicas(w)) <= w.dc.spec.size
    ensures c.PodTemplate? ==> TemplatesCurrent(w)
    ensures c.ClearActions? ==> ActionsSettled(w.dc.conditions, w.dc.spec.stopped)
    ensures c.InitializedAndReady? ==> ReadySettled(w.dc.conditions)
  {
  }

  lemma SameEstablished(k: nat, w: World, w': World)
    requires |w.dc.spec.hashes| == |w.sts| && Established(k, w) && w'.env == w.env && w'.pods == w.pods && w'.sts == w.sts
    requires w'.dc == w.dc.(conditions := w'.dc.conditions, lastRestart := w'.dc.lastRestart,
                            restartRequested := w'.dc.restartRequested, progress := w'.dc.progress)
    requires (k < 26 || w'.dc.conditions == w.dc.conditions) && (k < 28 || w'.dc.progress == w.dc.progress)
    ensures Established(k, w')
  {
    assert Replicas(w') == Replicas(w);
    assert k >= 20 ==> forall i :: InDc(w', i) ==> InDc(w, i);
  }

  lemma EstablishedLate(k: nat, w: World, w': World)
    requires 19 <= k < CHECKS && WellFormed(w) && Established(k, w) && StepSpec(CheckAt(k), w, w', Continue)
    ensures WellFormed(w') && Established(k + 1, w')
  {
    hide StepSpec;
    var c := CheckAt(k);
    WhichLate(k);
    SettlingLate(c, w, w');
    LateFinds(c, w, w');
    if k == 20 || k == 27 {
      SameEstablished(k, w, w');
    }
    EstablishedMore(k, w');
  }

  lemma WhichLate(k: nat)
    requires 19 <= k < CHECKS
    ensures var c := CheckAt(k);
            && Late(c) && (c.NodeStatuses? <==> k == 19) && (c.RestartPods? <==> k == 20) && (c.DecommissionNodes? <==> k == 22)
            && (c.PodTemplate? <==> k == 23) && (c.ClearActions? <==> k == 25) && (c.InitializedAndReady? <==> k == 26)
            && (c.Finish? <==> k == 27)
  {
  }

  lemma EstablishedMore(k: nat, w: World)
    requires 19 <= k < CHECKS && |w.dc.spec.hashes| == |w.sts| && Established(k, w)
    requires k == 19 ==> AllHostIdsKnown(w)
    requires k == 22 ==> Sum(Replicas(w)) <= w.dc.spec.size
    requires k == 23 ==> TemplatesCurrent(w)
    requires k == 25 ==> ActionsSettled(w.dc.conditions, w.dc.spec.stopped)
    requires k == 26 ==> ReadySettled(w.dc.conditions)
    requires k == 27 ==> w.dc.progress == ProgressReady
    ensures Established(k + 1, w)
  {
  }

  lemma EstablishedStarting(k: nat, w: World, w': World)
    requires k == 17 || k == 18
    requires WellFormed(w) && Established(k, w) && StepSpec(CheckAt(k), w, w', Continue)
    ensures WellFormed(w') && Established(k + 1, w')
  {
    SettlingStarts(CheckAt(k), w, w');
  }

  lemma {:induction false} ReachEstablished(k: nat, w0: World, w: World)
    requires k <= CHECKS && WellFormed(w0) && Reaches(k, w0, w)
    ensures WellFormed(w) && Established(k, w)
  {
    hide StepSpec;
    ReachShape(k, w0, w);
    if k > 17 {
      var m := Before(k, w0, w);
      ReachEstablished(k - 1, w0, m);
      if k - 1 >= 19 {
        EstablishedLate(k - 1, m, w);
      } else {
        EstablishedStarting(k - 1, m, w);
      }
    }
  }

  /** The datacenter is as its spec wants it. */
  ghost predicate AsSpecified(w: World)
    requires WellFormed(w)
  {
    && Replicas(w) == Split(w.dc.spec.size, |w.dc.spec.racks|)
    && EnoughUp(w) && AllHostIdsKnown(w)
    && w.dc.replacements == [] && NoDc(w, IsDecommissioning)
    && TemplatesCurrent(w)
    && ActionsSettled(w.dc.conditions, false) && ReadySettled(w.dc.conditions) && w.dc.progress == ProgressReady
  }

  lemma ReadyAtEnd(k: nat, w0: World, w: World)
    requires k == CHECKS && WellFormed(w0) && WellNamed(w0) && OneLeaver(w0) && !w0.dc.spec.stopped
    requires Reaches(k, w0, w)
    ensures WellFormed(w) && AsSpecified(w)
  {
    hide StepSpec;
    ReachShape(k, w0, w);
    ReachEstablished(k, w0, w);
    ReachPhase(k, w0, w);
    ReachOrderPhase(k, w0, w);
    ReachMidway(k, w0, w, Replicas(w0));
    RaisedAll(Replicas(w0), w.dc.spec.size);
    SettledAtSplit(Replicas(w), w.dc.spec.size);
  }

  /** A pass over a running datacenter that reports it ready leaves exactly the balanced split of
      replicas, enough nodes ready and started, every host ID known, no replacement pending, no
      pod leaving, templates current, no action under way, and the datacenter valid. */
  lemma ReadyMeansConverged(w0: World, w': World)
    requires WellFormed(w0) && WellNamed(w0) && OneLeaver(w0) && !w0.dc.spec.stopped
    requires RunsThrough(w0, w')
    ensures WellFormed(w') && AsSpecified(w')
  {
    hide Reaches, StepSpec;
    ReadyAtEnd(CHECKS, w0, w');
  }
}
