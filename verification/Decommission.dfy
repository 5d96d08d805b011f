/** Giving nodes up: at most one at a time, always the last of its rack, never started again,
    and the rack's replica count follows it down once. */
module Decommission {
  import opened Conditions
  import opened Racks
  import opened Names
  import opened Model
  import opened Specs
  import opened Pass
  import opened Frames
  import opened Labels

  /** The datacenter's pods carry the names their StatefulSets gave them. */
  ghost predicate WellNamed(w: World) {
    forall i :: InDc(w, i) ==>
      var p := w.pods[i].info;
      p.name == StsPodName(StsName(w.dc.spec.cluster, w.dc.spec.name, p.rack), p.ordinal)
  }

  ghost predicate Leaving(w: World, i: int) {
    InDc(w, i) && IsDecommissioning(w.pods[i])
  }

  /** The pod is its rack's last one, or was until the rack was lowered for it. */
  ghost predicate LeavesEnd(w: World, i: int)
    requires InDc(w, i)
  {
    var k := StsIndex(w.sts, w.pods[i].info.rack);
    k >= 0 && w.pods[i].info.ordinal <= w.sts[k].replicas <= w.pods[i].info.ordinal + 1
  }

  ghost predicate OneLeaver(w: World) {
    && (forall i, j :: Leaving(w, i) && Leaving(w, j) ==> i == j)
    && (forall i :: Leaving(w, i) ==> LeavesEnd(w, i))
    && ((exists i :: Leaving(w, i)) ==> Condition_(w, ScalingDown) == True)
  }

  /** The suffix of the last replica's name singles out one pod of the rack. */
  lemma LastPodUnique(w: World, i: int, j: int, rack: string, replicas: int)
    requires WellFormed(w) && WellNamed(w) && InDc(w, i) && InDc(w, j)
    requires MatchesLast(w.pods[i], rack, replicas) && MatchesLast(w.pods[j], rack, replicas)
    ensures i == j && w.pods[i].info.ordinal == replicas - 1
  {
    LastPodOrdinal(w, i, replicas);
    LastPodOrdinal(w, j, replicas);
    assert w.pods[i].info.name == w.pods[j].info.name;
  }

  lemma LastPodOrdinal(w: World, i: int, replicas: int)
    requires WellNamed(w) && InDc(w, i)
    ensures HasSuffix(w.pods[i].info.name, LastPodSuffix(replicas)) <==> w.pods[i].info.ordinal == replicas - 1
  {
    var p := w.pods[i].info;
    SuffixPicksLastPod(w.dc.spec.cluster, w.dc.spec.name, p.rack, p.ordinal, replicas);
  }

  // ----- One check -----

  lemma UpdateStatusKeepsScaling(w: World, w': World, r: Result)
    requires UpdateStatusSpec(w, w', r)
    ensures Condition_(w', ScalingDown) == Condition_(w, ScalingDown)
  {
    WithStatus(w.dc.conditions, ReplacingNodes, True, w.env.now, ScalingDown);
  }

  lemma SameLeavers(w: World, w': World)
    requires SameLabels(w, w') && SameShape(w, w') && w'.sts == w.sts
    requires Condition_(w', ScalingDown) == Condition_(w, ScalingDown)
    requires OneLeaver(w)
    ensures OneLeaver(w')
  {
    forall i | Leaving(w', i) ensures Leaving(w, i) {
    }
  }

  lemma NobodyLeaves(w: World)
    requires NoDc(w, IsDecommissioning)
    ensures OneLeaver(w)
  {
  }

  /** What one pass may do to the replica counts while pod `i` leaves rack `k`. */
  ghost predicate FollowsDown(w: World, w': World, i: int, k: int)
    requires InDc(w, i)
  {
    && 0 <= k < |w.sts| == |w'.sts|
    && (forall j :: 0 <= j < |w.sts| && j != k ==> w'.sts[j].replicas == w.sts[j].replicas)
    && (|| w'.sts[k].replicas == w.sts[k].replicas
        || (&& IsDoneDecommissioning(w.pods[i], w.env.endpoints)
            && w.sts[k].replicas == w.pods[i].info.ordinal + 1
            && w'.sts[k].replicas == w.pods[i].info.ordinal))
  }

  lemma CleanUpLowers(w: World, w': World, i: int, r: Result)
    requires WellNamed(w) && OneLeaver(w) && Leaving(w, i)
    requires IsDoneDecommissioning(w.pods[i], w.env.endpoints) && CleanUpSpec(w, w', i, r)
    ensures FollowsDown(w, w', i, StsIndex(w.sts, w.pods[i].info.rack))
    ensures w'.pods == w.pods && w'.dc.conditions == w.dc.conditions && r != Continue
  {
    var k := StsIndex(w.sts, w.pods[i].info.rack);
    assert LeavesEnd(w, i);
    LastPodOrdinal(w, i, w.sts[k].replicas);
  }

  lemma {:induction false} SameRacksSameIndex(sts: seq<StsView>, sts': seq<StsView>, rack: string)
    requires |sts| == |sts'| && forall k :: 0 <= k < |sts| ==> sts[k].rack == sts'[k].rack
    ensures StsIndex(sts, rack) == StsIndex(sts', rack)
  {
  }

  lemma StillOneLeaver(w: World, w': World, i: int)
    requires OneLeaver(w) && Leaving(w, i) && SameShape(w, w') && SameLabels(w, w')
    requires Condition_(w', ScalingDown) == Condition_(w, ScalingDown)
    requires FollowsDown(w, w', i, StsIndex(w.sts, w.pods[i].info.rack))
    ensures OneLeaver(w')
  {
    SameRacksSameIndex(w.sts, w'.sts, w.pods[i].info.rack);
    forall j | Leaving(w', j) ensures j == i && LeavesEnd(w', j) {
      assert Leaving(w, j);
      assert LeavesEnd(w, i);
    }
    assert Leaving(w, i);
  }

  /** The check that follows a leaving pod hands over only when nobody is leaving. */
  lemma DecommissioningStep(w: World, w': World, r: Result)
    requires WellNamed(w) && OneLeaver(w) && DecommissioningSpec(w, w', r)
    ensures r == Continue ==> NoDc(w, IsDecommissioning) && NoDc(w', IsDecommissioning)
    ensures OneLeaver(w') && w'.pods == w.pods
    ensures forall i :: Leaving(w, i) ==> FollowsDown(w, w', i, StsIndex(w.sts, w.pods[i].info.rack))
  {
    DecommissioningKeeps(w, w', r);
    KeepsShape(DecommissioningNodes, w, w');
    if w' == w {
      forall i | Leaving(w, i) ensures FollowsDown(w, w', i, StsIndex(w.sts, w.pods[i].info.rack)) {
        assert LeavesEnd(w, i);
      }
      if Condition_(w, ScalingDown) != True {
        NoLeaverWithoutScaling(w);
      }
    } else if NoDc(w, IsDecommissioning) {
      NobodyLeaves(w');
    } else {
      var i :| FirstDc(w, i, IsDecommissioning) && IsDoneDecommissioning(w.pods[i], w.env.endpoints) && CleanUpSpec(w, w', i, r);
      assert Leaving(w, i);
      CleanUpLowers(w, w', i, r);
      StillOneLeaver(w, w', i);
    }
  }

  lemma NoLeaverWithoutScaling(w: World)
    requires OneLeaver(w) && Condition_(w, ScalingDown) != True
    ensures NoDc(w, IsDecommissioning)
  {
    forall i | InDc(w, i) ensures !IsDecommissioning(w.pods[i]) {
      assert !Leaving(w, i);
    }
  }

  lemma LabelledLeaves(w: World, w': World, i: int, k: int)
    requires WellFormed(w) && WellNamed(w) && NoDc(w, IsDecommissioning)
    requires 0 <= k < |w.sts| && FirstLastPod(w, i, k) && w' == SetState(Shrinking(w), i, Decommissioning)
    ensures OneLeaver(w') && w.pods[i].info.ordinal == w.sts[k].replicas - 1
    ensures forall j :: Leaving(w', j) ==> j == i
  {
    LastPodUnique(w, i, i, w.sts[k].rack, w.sts[k].replicas);
    RackFound(w, k);
    WithStatus(w.dc.conditions, ScalingDown, True, w.env.now, ScalingDown);
    forall j | Leaving(w', j) ensures j == i {
      assert InDc(w, j);
    }
    assert LeavesEnd(w', i);
  }

  /** There are nodes too many, and pod `i` is the last one of the first rack in excess. */
  ghost predicate LastOfExcess(w: World, i: int, k: int)
    requires 0 <= i < |w.pods| && w.sts != []
  {
    && w.dc.spec.size < Sum(Replicas(w))
    && FirstExcess(Replicas(w), k) && w.sts[k].rack == w.pods[i].info.rack
    && w.pods[i].info.ordinal == w.sts[k].replicas - 1
  }

  lemma GiveUpStep(w: World, w': World, r: Result)
    requires WellFormed(w) && WellNamed(w) && NoDc(w, IsDecommissioning)
    requires DecommissionNodesSpec(w, w', r)
    ensures OneLeaver(w') && w'.sts == w.sts && (r == Continue ==> w' == w)
    ensures forall i :: Leaving(w', i) ==> 0 <= i < |w.pods| && exists k :: LastOfExcess(w, i, k)
  {
    if w'.pods == w.pods {
      DecommissionNodesKeeps(w, w', r);
      assert w'.sts == w.sts;
      NobodyLeaves(w');
    } else {
      var k :| FirstExcess(Replicas(w), k) && ShrinkSpec(w, w', k, r);
      var i :| FirstLastPod(w, i, k) && w' == SetState(Shrinking(w), i, Decommissioning);
      LabelledLeaves(w, w', i, k);
      assert LastOfExcess(w, i, k);
    }
  }

  lemma RackFound(w: World, k: int)
    requires WellFormed(w) && 0 <= k < |w.sts|
    ensures StsIndex(w.sts, w.sts[k].rack) == k
  {
  }

  // ----- A whole pass -----

  /** Up to the check that follows a leaving pod there may be one; past it there is none. */
  ghost predicate Phase(k: nat, w: World) {
    if k <= 5 then OneLeaver(w) else NoDc(w, IsDecommissioning)
  }

  lemma EarlyPhase(c: Check, w: World, w': World, r: Result)
    requires StepSpec(c, w, w', r) && Early(c) && OneLeaver(w)
    ensures OneLeaver(w') && SameLabels(w, w') && w'.sts == w.sts
  {
    StepKeeps(c, w, w', r);
    KeepsShape(c, w, w');
    assert w'.sts == w.sts;
    if c.UpdateStatus? {
      UpdateStatusKeepsScaling(w, w', r);
    }
    SameLeavers(w, w');
  }

  lemma LatePhase(c: Check, w: World, w': World, r: Result)
    requires StepSpec(c, w, w', r) && !c.DecommissionNodes? && NoDc(w, IsDecommissioning)
    ensures NoDc(w', IsDecommissioning) && OneLeaver(w')
  {
    StepKeeps(c, w, w', r);
    StepLabels(c, w, w', r);
    forall i | InDc(w', i) ensures !IsDecommissioning(w'.pods[i]) {
      assert InDc(w, i);
    }
    NobodyLeaves(w');
  }

  lemma FollowPhase(c: Check, w: World, w': World, r: Result)
    requires StepSpec(c, w, w', r) && c.DecommissioningNodes? && WellNamed(w) && OneLeaver(w)
    ensures OneLeaver(w') && (r == Continue ==> NoDc(w', IsDecommissioning))
  {
    DecommissioningStep(w, w', r);
  }

  lemma GiveUpPhase(c: Check, w: World, w': World, r: Result)
    requires StepSpec(c, w, w', r) && c.DecommissionNodes? && WellNamed(w) && NoDc(w, IsDecommissioning)
    ensures OneLeaver(w') && (r == Continue ==> NoDc(w', IsDecommissioning))
  {
    GiveUpStep(w, w', r);
  }

  lemma PhaseStep(k: nat, w: World, w': World, r: Result)
    requires WellNamed(w) && Phase(k, w) && StepSpec(CheckAt(k), w, w', r)
    ensures OneLeaver(w') && (r == Continue ==> Phase(k + 1, w'))
  {
    var c := CheckAt(k);
    if k < 5 {
      EarlyPhase(c, w, w', r);
    } else if k == 5 {
      FollowPhase(c, w, w', r);
    } else if k == 22 {
      GiveUpPhase(c, w, w', r);
    } else {
      LatePhase(c, w, w', r);
    }
  }

  lemma ShapeKeepsNames(w: World, w': World)
    requires WellNamed(w) && SameShape(w, w')
    ensures WellNamed(w')
  {
    forall i | InDc(w', i) ensures InDc(w, i) {
    }
  }

  lemma ReachNamed(k: nat, w0: World, w: World)
    requires WellNamed(w0) && Reaches(k, w0, w)
    ensures WellNamed(w)
  {
    ReachShape(k, w0, w);
    ShapeKeepsNames(w0, w);
  }

  lemma {:induction false} ReachPhase(k: nat, w0: World, w: World)
    requires WellNamed(w0) && OneLeaver(w0) && Reaches(k, w0, w)
    ensures Phase(k, w) && WellNamed(w)
  {
    hide StepSpec;
    ReachNamed(k, w0, w);
    if k > 0 {
      var j := k - 1;
      var m := Before(k, w0, w);
      ReachPhase(j, w0, m);
      PhaseStep(j, m, w, Continue);
    }
  }

  /** Every pass keeps it so that at most one pod of the datacenter is leaving. */
  lemma PassKeepsOneLeaver(w0: World, w': World)
    requires WellNamed(w0) && OneLeaver(w0) && PassSpec(w0, w')
    ensures OneLeaver(w')
  {
    hide StepSpec;
    var k, m, r := PassEnd(w0, w');
    ReachPhase(k, w0, m);
    if k < CHECKS {
      PhaseStep(k, m, w', r);
    } else {
      NobodyLeaves(w');
    }
  }

  // ----- A pod that is leaving -----

  /** Nothing about pods leaving has changed. */
  ghost predicate SameLeaving(w: World, w': World) {
    SameShape(w, w') && SameLabels(w, w') && w'.sts == w.sts
  }

  lemma FollowLeaver(c: Check, w: World, w': World, r: Result, i: int)
    requires StepSpec(c, w, w', r) && c.DecommissioningNodes?
    requires WellNamed(w) && OneLeaver(w) && Leaving(w, i)
    ensures r != Continue && SameLabels(w, w')
    ensures FollowsDown(w, w', i, StsIndex(w.sts, w.pods[i].info.rack))
  {
    DecommissioningStep(w, w', r);
    assert IsDecommissioning(w.pods[i]);
  }

  lemma LeaverUntouched(c: Check, w: World, w': World, r: Result)
    requires StepSpec(c, w, w', r) && Early(c) && OneLeaver(w)
    ensures SameLeaving(w, w')
  {
    EarlyPhase(c, w, w', r);
    StepShape(c, w, w', r);
  }

  lemma {:induction false} LeaverHoldsPass(k: nat, w0: World, w: World, i: int)
    requires WellNamed(w0) && OneLeaver(w0) && Leaving(w0, i) && Reaches(k, w0, w)
    ensures k <= 5 && SameLeaving(w0, w)
  {
    hide StepSpec;
    if k > 0 {
      var j := k - 1;
      var m := Before(k, w0, w);
      LeaverHoldsPass(j, w0, m, i);
      ReachPhase(j, w0, m);
      if j == 5 {
        FollowLeaver(CheckAt(j), m, w, Continue, i);
      } else {
        LeaverUntouched(CheckAt(j), m, w, Continue);
        ShapeTransitive(w0, m, w);
      }
    }
  }

  lemma FollowedFromStart(w0: World, m: World, w': World, i: int)
    requires SameLeaving(w0, m) && InDc(w0, i) && FollowsDown(m, w', i, StsIndex(m.sts, m.pods[i].info.rack))
    ensures FollowsDown(w0, w', i, StsIndex(w0.sts, w0.pods[i].info.rack))
  {
  }

  /** While a pod is leaving, no pass relabels any pod, so it is not started again; and its
      rack is lowered at most once, from the pod's own replica, by a pass that found it done. */
  lemma LeaverIsFollowedDown(w0: World, w': World, i: int)
    requires WellNamed(w0) && OneLeaver(w0) && Leaving(w0, i) && PassSpec(w0, w')
    ensures SameLabels(w0, w')
    ensures FollowsDown(w0, w', i, StsIndex(w0.sts, w0.pods[i].info.rack))
  {
    hide StepSpec;
    var k, m, r := PassEnd(w0, w');
    LeaverHoldsPass(k, w0, m, i);
    ReachPhase(k, w0, m);
    LeaverEnd(k, w0, m, w', r, i);
  }

  lemma LeaverEnd(k: nat, w0: World, m: World, w': World, r: Result, i: int)
    requires OneLeaver(w0) && Leaving(w0, i) && SameLeaving(w0, m)
    requires k <= 5 && WellNamed(m) && OneLeaver(m) && StepSpec(CheckAt(k), m, w', r)
    ensures SameLabels(w0, w')
    ensures FollowsDown(w0, w', i, StsIndex(w0.sts, w0.pods[i].info.rack))
  {
    hide StepSpec, WellNamed, OneLeaver, FollowsDown;
    if k == 5 {
      FollowLeaver(CheckAt(k), m, w', r, i);
      FollowedFromStart(w0, m, w', i);
    } else {
      LeaverUntouched(CheckAt(k), m, w', r);
      NotLowered(w0, m, w', i);
    }
  }

  lemma NotLowered(w0: World, m: World, w': World, i: int)
    requires SameLeaving(w0, m) && SameLeaving(m, w') && OneLeaver(w0) && Leaving(w0, i)
    ensures FollowsDown(w0, w', i, StsIndex(w0.sts, w0.pods[i].info.rack))
  {
    assert LeavesEnd(w0, i);
  }
}
