/** When a pass clears the ReplacingNodes condition although replacements are pending: exactly on a
    stopped datacenter with nothing else to do, stated on the world before the pass. */
module Clearing {
  import opened Conditions
  import Racks
  import opened Lists
  import opened Model
  import opened Specs
  import opened EmmSpecs
  import opened Pass
  import opened Frames
  import opened Convergence
  import opened Quiescence
  import opened Opening
  import opened DrainHandover
  import opened Approach
  import opened Replacing

  // ----- The way of a stopped datacenter -----

  /** Every pod's host ID is among these. */
  ghost predicate Knows(w: World, ids: map<string, string>) {
    forall i :: InDc(w, i) ==> HostId(ids, w.pods[i].info.name) != ""
  }

  /** No pod is older than the restart asked for now or last. */
  ghost predicate NoneOlder(w: World) {
    forall i :: InDc(w, i) ==> w.pods[i].info.created >= if w.dc.restartRequested then w.env.now else w.dc.lastRestart
  }

  /** The names tracked once the status has been recorded. */
  ghost function StillTracked(w: World): seq<string> {
    AppendAbsent(RemoveEach(w.dc.replacements, OverNames(w)), w.dc.replaceNodes)
  }

  /** Nothing ends the pass before the actions are cleared, and a replacement is pending then. */
  ghost predicate WayToClear(w: World, ids: map<string, string>)
    requires WellFormed(w)
  {
    && w.dc.spec.stopped && WayToScale(w, ids)
    && Knows(w, ids) && NoneOlder(w) && TemplatesCurrent(w) && StillTracked(w) != []
  }

  /** What the pass brings to the check at position `k`. */
  ghost function Brought(k: nat, w: World, ids: map<string, string>): World
    requires WellFormed(w)
  {
    var b := BroughtTo(w, ids);
    var g := AllGrown(b, Racks.Split(0, |w.sts|));
    if k <= 8 then b else if k <= 20 then g else RestartBegun(g)
  }

  lemma GrownShape(w: World, desired: seq<int>)
    requires |w.sts| == |desired| && forall k :: 0 <= k < |w.sts| ==> w.sts[k].replicas <= desired[k]
    ensures var g := AllGrown(w, desired);
            && g.pods == w.pods && g.env == w.env && g.dc.spec == w.dc.spec && g.dc.hostIds == w.dc.hostIds
            && g.dc.lastRestart == w.dc.lastRestart && g.dc.restartRequested == w.dc.restartRequested
            && g.dc.replacements == w.dc.replacements && |g.sts| == |w.sts|
            && forall k :: 0 <= k < |w.sts| ==> g.sts[k] == w.sts[k].(replicas := desired[k])
  {
    hide GrowConditions, GrowCount;
  }

  lemma BroughtLike(k: nat, w: World, ids: map<string, string>)
    requires 8 <= k <= 25 && WellFormed(w) && w.dc.spec.stopped && WayToScale(w, ids)
    ensures var m := Brought(k, w, ids);
            && WellFormed(m) && m.pods == w.pods && m.env == w.env && m.dc.spec == w.dc.spec && m.dc.hostIds == ids
            && m.dc.replacements == StillTracked(w)
            && (forall l :: 0 <= l < |w.sts| ==> m.sts[l].hash == w.sts[l].hash && m.sts[l].status == w.sts[l].status)
            && (k > 8 ==> forall l :: 0 <= l < |w.sts| ==> m.sts[l].replicas == 0)
            && (k <= 20 ==> m.dc.lastRestart == w.dc.lastRestart && m.dc.restartRequested == w.dc.restartRequested)
  {
    hide BroughtTo, AllGrown, HostIdsRefreshed, HandsOver, Racks.Split, With;
    BroughtShape(w, ids);
    ZeroSplit(|w.sts|);
    GrownShape(BroughtTo(w, ids), Racks.Split(0, |w.sts|));
  }

  lemma ZeroSplit(n: nat)
    requires n > 0
    ensures |Racks.Split(0, n)| == n && forall k :: 0 <= k < n ==> Racks.Split(0, n)[k] == 0
  {
  }

  lemma {:induction false} NoReplicas(s: seq<int>)
    requires forall k :: 0 <= k < |s| ==> s[k] == 0
    ensures Racks.Sum(s) == 0
  {
    if s != [] {
      NoReplicas(s[..|s| - 1]);
    }
  }

  // ----- One check -----

  /** When a check of a stopped datacenter hands over, from the scale check on, and what it leaves. */
  ghost predicate HandsOverStopped(c: Check, w: World)
    requires WellFormed(w)
  {
    match c
    case NodeStatuses => AllHostIdsKnown(w)
    case RestartPods => NoneOlder(w)
    case PodTemplate => TemplatesCurrent(w)
    case _ => true
  }

  ghost function NextStopped(c: Check, w: World): World
    requires WellFormed(w)
  {
    match c
    case RackScale => AllGrown(w, Racks.Split(0, |w.sts|))
    case RestartPods => RestartBegun(w)
    case _ => w
  }

  lemma ScaleStopped(c: Check, w: World, w': World)
    requires WellFormed(w) && w.dc.spec.stopped && c.RackScale?
    ensures StepSpec(c, w, w', Continue) <==> w' == AllGrown(w, Racks.Split(0, |w.sts|))
  {
    hide AllGrown, Racks.Split;
  }

  lemma SkippedStopped(c: Check, w: World, w': World)
    requires WellFormed(w) && w.dc.spec.stopped && (Relabels(c) || Starts(c))
    ensures StepSpec(c, w, w', Continue) <==> w' == w
  {
  }

  lemma RestartStopped(w: World, w': World)
    ensures RollingRestartSpec(w, w', Continue) <==> w' == RestartBegun(w) && NoneOlder(w)
  {
    hide With;
    var a := RestartBegun(w);
    assert forall i :: InDc(a, i) <==> InDc(w, i);
    assert NoneOlder(w) <==> forall i :: InDc(a, i) ==> a.pods[i].info.created >= a.dc.lastRestart;
  }

  lemma ShrinkStopped(w: World, w': World)
    requires w.sts != [] && Racks.Sum(Replicas(w)) <= w.dc.spec.size
    ensures DecommissionNodesSpec(w, w', Continue) <==> w' == w
  {
  }

  predicate BeforeClearing(c: Check) {
    || c.NodeStatuses? || c.RestartPods? || c.DisruptionBudget? || c.DecommissionNodes? || c.PodTemplate?
    || c.PodLabelsAndUsers?
  }

  lemma LateStopped(c: Check, w: World, w': World)
    requires WellFormed(w) && BeforeClearing(c) && (c.DecommissionNodes? ==> Racks.Sum(Replicas(w)) <= w.dc.spec.size)
    ensures LateSpec(c, w, w', Continue) <==> w' == NextStopped(c, w) && HandsOverStopped(c, w)
  {
    hide RollingRestartSpec, RestartBegun, NoneOlder, DecommissionNodesSpec, AllGrown;
    if c.RestartPods? {
      RestartStopped(w, w');
    } else if c.DecommissionNodes? {
      ShrinkStopped(w, w');
    }
  }

  lemma LateStepStopped(c: Check, w: World, w': World)
    requires WellFormed(w) && BeforeClearing(c) && (c.DecommissionNodes? ==> Racks.Sum(Replicas(w)) <= w.dc.spec.size)
    ensures StepSpec(c, w, w', Continue) <==> w' == NextStopped(c, w) && HandsOverStopped(c, w)
  {
    hide LateSpec, NextStopped, HandsOverStopped;
    LateStopped(c, w, w');
  }

  lemma WhichStopped(k: nat)
    ensures k == 8 <==> CheckAt(k).RackScale?
    ensures 9 <= k <= 18 ==> Relabels(CheckAt(k)) || Starts(CheckAt(k))
    ensures 19 <= k <= 24 ==> BeforeClearing(CheckAt(k))
    ensures (CheckAt(k).NodeStatuses? <==> k == 19) && (CheckAt(k).RestartPods? <==> k == 20)
    ensures (CheckAt(k).DecommissionNodes? <==> k == 22) && (CheckAt(k).PodTemplate? <==> k == 23)
  {
  }

  lemma StepStopped(k: nat, w: World, w': World)
    requires WellFormed(w) && w.dc.spec.stopped && 8 <= k < 25 && (k == 22 ==> Racks.Sum(Replicas(w)) <= w.dc.spec.size)
    ensures StepSpec(CheckAt(k), w, w', Continue) <==> w' == NextStopped(CheckAt(k), w) && HandsOverStopped(CheckAt(k), w)
  {
    hide StepSpec, RestartBegun, AllGrown, Racks.Split, CheckAt;
    WhichStopped(k);
    if k == 8 {
      ScaleStopped(CheckAt(k), w, w');
    } else if k <= 18 {
      SkippedStopped(CheckAt(k), w, w');
    } else {
      LateStepStopped(CheckAt(k), w, w');
    }
  }

  // ----- The way, there and back -----

  lemma BroughtNext(k: nat, w: World, ids: map<string, string>, m: World)
    requires 8 <= k < 25 && WellFormed(w) && w.dc.spec.stopped && WayToScale(w, ids)
    ensures StepSpec(CheckAt(k), Brought(k, w, ids), m, Continue) <==>
              && m == Brought(k + 1, w, ids)
              && (k == 19 ==> Knows(w, ids)) && (k == 20 ==> NoneOlder(w)) && (k == 23 ==> TemplatesCurrent(w))
  {
    hide StepSpec, AllGrown, BroughtTo, RestartBegun, HandsOver, HostIdsRefreshed, Racks.Split;
    var b := Brought(k, w, ids);
    BroughtLike(k, w, ids);
    if k == 22 {
      NoReplicas(Replicas(b));
    }
    StepStopped(k, b, m);
    WhichStopped(k);
    assert forall i :: InDc(b, i) <==> InDc(w, i);
  }

  /** The conditions met before position `k`. */
  ghost predicate MetBefore(k: nat, w: World, ids: map<string, string>)
    requires WellFormed(w)
  {
    && WayToScale(w, ids)
    && (k > 19 ==> Knows(w, ids)) && (k > 20 ==> NoneOlder(w)) && (k > 23 ==> TemplatesCurrent(w))
  }

  lemma {:induction false} BroughtReaches(k: nat, w: World, ids: map<string, string>)
    requires 8 <= k <= 25 && WellFormed(w) && w.dc.spec.stopped && MetBefore(k, w, ids)
    ensures Reaches(k, w, Brought(k, w, ids))
  {
    hide StepSpec, Reaches, WayToScale, BroughtTo, AllGrown, RestartBegun, Knows, NoneOlder, TemplatesCurrent;
    if k == 8 {
      ScaleReached(w, ids);
    } else {
      BroughtReaches(k - 1, w, ids);
      BroughtNext(k - 1, w, ids, Brought(k, w, ids));
      ReachesNext(k - 1, w, Brought(k - 1, w, ids), Brought(k, w, ids));
    }
  }

  lemma {:induction false} ReachesBrought(k: nat, w0: World, w: World) returns (ids: map<string, string>)
    requires 8 <= k <= 25 && WellFormed(w0) && w0.dc.spec.stopped && Reaches(k, w0, w)
    ensures MetBefore(k, w0, ids) && w == Brought(k, w0, ids)
  {
    hide StepSpec, WayToScale, BroughtTo, AllGrown, RestartBegun, Knows, NoneOlder, TemplatesCurrent;
    if k == 8 {
      ids := ReachesScale(w0, w);
    } else {
      var m := Before(k, w0, w);
      ids := ReachesBrought(k - 1, w0, m);
      BroughtNext(k - 1, w0, ids, w);
    }
  }

  /** A pass may come to clearing the actions with a replacement pending. */
  ghost predicate MayClearPending(w: World) {
    var k := 25;
    exists m :: Reaches(k, w, m) && m.dc.replacements != []
  }

  /** Exactly so on a stopped datacenter whose way to that check is clear. */
  lemma MayClearExact(w: World)
    requires WellFormed(w) && w.dc.spec.stopped
    ensures MayClearPending(w) <==> exists ids :: WayToClear(w, ids)
  {
    hide StepSpec, Reaches, WayToScale, Brought, Knows, NoneOlder, TemplatesCurrent, StillTracked;
    var k := 25;
    if m :| Reaches(k, w, m) && m.dc.replacements != [] {
      var ids := ReachesBrought(k, w, m);
      BroughtLike(k, w, ids);
      assert WayToClear(w, ids);
    }
    if ids :| WayToClear(w, ids) {
      BroughtReaches(k, w, ids);
      BroughtLike(k, w, ids);
    }
  }

  // ----- Exactly when the condition is kept -----

  lemma {:induction false} ReachTrackedSoFar(k: nat, w0: World, w: World)
    requires k <= 25 && Tracked(w0) && Reaches(k, w0, w)
    ensures Tracked(w)
  {
    hide StepSpec, Tracked;
    if k > 0 {
      var m := Before(k, w0, w);
      ReachTrackedSoFar(k - 1, w0, m);
      TrackedNext(k - 1, m, w, Continue);
    }
  }

  lemma ClearedNothing(c: Check, w: World, w': World)
    requires c.ClearActions? && StepSpec(c, w, w', Continue)
    ensures w' == w
  {
  }

  lemma {:induction false} ReachTrackedBehind(k: nat, w0: World, w: World)
    requires 25 < k <= CHECKS && Tracked(w0) && Reaches(k, w0, w)
    ensures Tracked(w)
  {
    hide StepSpec, Tracked;
    var m := Before(k, w0, w);
    WhereTracked(k - 1);
    if k == 26 {
      ReachTrackedSoFar(k - 1, w0, m);
      ClearedNothing(CheckAt(k - 1), m, w);
    } else {
      ReachTrackedBehind(k - 1, w0, m);
      TrackedNext(k - 1, m, w, Continue);
    }
  }

  lemma TrackedUnlessCleared(w0: World, w': World)
    requires Tracked(w0) && !MayClearPending(w0) && PassSpec(w0, w')
    ensures Tracked(w')
  {
    hide StepSpec, Tracked;
    var k, m, r := PassEnd(w0, w');
    if k <= 25 {
      ReachTrackedSoFar(k, w0, m);
    } else {
      ReachTrackedBehind(k, w0, m);
    }
    if k < CHECKS {
      TrackedNext(k, m, w', r);
    }
  }

  lemma ClearsPending(c: Check, w: World)
    requires WellFormed(w) && c.ClearActions? && Tracked(w) && w.dc.replacements != []
    ensures var w' := SetConditions(w, Cleared(w.dc.conditions, w.dc.spec.stopped, w.env.now));
            StepSpec(c, w, w', Requeue) && !Tracked(w')
  {
    hide Cleared, With, StatusOf;
    ClearedFor(w.dc.conditions, w.dc.spec.stopped, w.env.now, ReplacingNodes);
  }

  lemma RunningNeverClears(w: World)
    requires WellFormed(w) && Tracked(w) && !w.dc.spec.stopped
    ensures !MayClearPending(w)
  {
    hide StepSpec, Reaches, Tracked;
    var k := 25;
    if m :| Reaches(k, w, m) && m.dc.replacements != [] {
      ReachTracked(k, w, m);
    }
  }

  /** A pass that may clear with a replacement pending does, and keeps the list. */
  lemma ClearingForgets(w: World) returns (w': World)
    requires WellFormed(w) && Tracked(w) && MayClearPending(w)
    ensures PassSpec(w, w') && w'.dc.replacements != [] && Condition_(w', ReplacingNodes) != True
  {
    hide StepSpec, Reaches, Cleared;
    var k := 25;
    var m :| Reaches(k, w, m) && m.dc.replacements != [];
    ReachTrackedSoFar(k, w, m);
    ReachShape(k, w, m);
    WhereTracked(k);
    ClearsPending(CheckAt(k), m);
    w' := SetConditions(m, Cleared(m.dc.conditions, m.dc.spec.stopped, m.env.now));
    assert EndsAt(k, w, w', Requeue);
  }

  /** Every pass keeps "replacements pending implies ReplacingNodes", if and only if the datacenter
      runs, or there is something that ends a pass before the actions are cleared, or no replacement
      will be pending then. */
  lemma TracksExact(w: World)
    requires WellFormed(w) && Tracked(w)
    ensures (forall w' :: PassSpec(w, w') ==> Tracked(w')) <==> forall ids :: !WayToClear(w, ids)
  {
    hide StepSpec, Reaches, PassSpec, WayToScale, Knows, NoneOlder, TemplatesCurrent, StillTracked;
    if w.dc.spec.stopped {
      MayClearExact(w);
    } else {
      RunningNeverClears(w);
    }
    if MayClearPending(w) {
      var w' := ClearingForgets(w);
      assert !Tracked(w');
    } else {
      forall w' | PassSpec(w, w') ensures Tracked(w') {
        TrackedUnlessCleared(w, w');
      }
    }
  }

  // ----- Without drains -----

  /** Every pod's host ID is known or can be learned. */
  ghost predicate Knowable(w: World) {
    forall i :: InDc(w, i) ==>
      HostId(w.dc.hostIds, w.pods[i].info.name) != "" || (w.pods[i].info.mgmtUp && w.pods[i].info.ip != "")
  }

  ghost predicate Learns(w: World, n: string) {
    exists i :: InDc(w, i) && w.pods[i].info.name == n && w.pods[i].info.mgmtUp && w.pods[i].info.ip != ""
  }

  /** Every host ID learned that can be. */
  ghost function LearnedIds(w: World): map<string, string> {
    map n | n in w.dc.hostIds.Keys + PodNames(w) ::
      if HostId(w.dc.hostIds, n) == "" && Learns(w, n) then "id" else HostId(w.dc.hostIds, n)
  }

  lemma AllLearned(w: World)
    ensures HostIdsRefreshed(w, LearnedIds(w)) && (Knowable(w) ==> Knows(w, LearnedIds(w)))
  {
    forall i | InDc(w, i) ensures w.pods[i].info.name in LearnedIds(w) {
      assert w.pods[i].info.name in PodNames(w);
    }
    assert forall n :: n in LearnedIds(w) && LearnedIds(w)[n] != HostId(w.dc.hostIds, n) ==> Learns(w, n);
    if Knowable(w) {
      forall i | InDc(w, i) ensures HostId(LearnedIds(w), w.pods[i].info.name) != "" {
        assert HostId(w.dc.hostIds, w.pods[i].info.name) == "" ==> Learns(w, w.pods[i].info.name);
      }
    }
  }

  lemma KnownWasKnowable(w: World, ids: map<string, string>)
    requires WellFormed(w) && HostIdsRefreshed(w, ids) && Knows(w, ids)
    ensures Knowable(w)
  {
    forall i | InDc(w, i)
      ensures HostId(w.dc.hostIds, w.pods[i].info.name) != "" || (w.pods[i].info.mgmtUp && w.pods[i].info.ip != "")
    {
      var n := w.pods[i].info.name;
      if HostId(w.dc.hostIds, n) == "" {
        var j :| InDc(w, j) && w.pods[j].info.name == n && w.pods[j].info.mgmtUp && w.pods[j].info.ip != "";
        assert j == i;
      }
    }
  }

  /** Where no node is drained, what is asked of host IDs is that each is known or can be learned. */
  lemma WayToClearWithoutDrains(w: World)
    requires WellFormed(w) && !w.env.pspEnabled
    ensures (exists ids :: WayToClear(w, ids))
            <==> && w.dc.spec.stopped && Admitted(w) && ClaimsPass(w)
                 && (Condition_(w, ScalingDown) == True ==> NoDc(w, IsDecommissioning))
                 && (forall k :: 0 <= k < |w.sts| ==> w.sts[k].replicas <= 0)
                 && Knowable(w) && NoneOlder(w) && TemplatesCurrent(w) && StillTracked(w) != []
  {
    hide HostIdsRefreshed, Knows, Knowable, NoneOlder, TemplatesCurrent, StillTracked, ClaimsPass, LearnedIds;
    if ids :| WayToClear(w, ids) {
      KnownWasKnowable(w, ids);
    }
    AllLearned(w);
    if Knowable(w) {
      assert HandsOver(Knowing(w, LearnedIds(w)));
      assert WayToClear(w, LearnedIds(w)) <==>
               && w.dc.spec.stopped && Admitted(w) && ClaimsPass(w)
               && (Condition_(w, ScalingDown) == True ==> NoDc(w, IsDecommissioning))
               && (forall k :: 0 <= k < |w.sts| ==> w.sts[k].replicas <= 0)
               && NoneOlder(w) && TemplatesCurrent(w) && StillTracked(w) != [];
    }
  }

  /** A stopped rack without replicas whose one node is to be replaced once it is back. */
  function Example(): World {
    World(Env(true, true, true, false, 0, [], map[]), [],
          [StsView("r", StsStatus(1, 1, 0, 0, 0, 0), 0, 0)],
          DcView(Spec("c", "dc", ["r"], 1, true, 0, false, [0]), [], false,
                 [Condition(ReplacingNodes, True, 0)], map[], ["c-dc-r-sts-0"], 0, ProgressReady))
  }

  lemma ExampleForgets() returns (w': World)
    ensures Tracked(Example()) && PassSpec(Example(), w') && !Tracked(w')
  {
    hide StepSpec, Reaches, PassSpec;
    var w := Example();
    assert OverNames(w) == {};
    RemoveNone(w.dc.replacements);
    assert StillTracked(w) == w.dc.replacements;
    assert Tracked(w) && WellFormed(w);
    WayToClearWithoutDrains(w);
    MayClearExact(w);
    w' := ClearingForgets(w);
  }
}
