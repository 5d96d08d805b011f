/** When a pass lowers a rack for a leaving pod, exactly, and when that takes the rack below its
    share: an edit of the size does not stop it. */
module Lowering {
  import opened Conditions
  import opened Racks
  import opened Names
  import opened Model
  import opened Specs
  import opened Pass
  import opened Frames
  import opened Decommission
  import opened Resizing
  import opened Opening
  import opened Approach
  import DecommissionRuns

  function RackOf(w: World, i: int): int
    requires 0 <= i < |w.pods|
  {
    StsIndex(w.sts, w.pods[i].info.rack)
  }

  /** Pod `i` is leaving and found done, its rack is still to be lowered, and no check before that
      ends the pass. */
  ghost predicate MayLower(w: World, i: int) {
    && Leaving(w, i) && IsDoneDecommissioning(w.pods[i], w.env.endpoints) && Admitted(w) && ClaimsPass(w)
    && 0 <= RackOf(w, i) < |w.sts| && w.sts[RackOf(w, i)].replicas == w.pods[i].info.ordinal + 1
  }

  /** The replica counts with pod `i`'s rack one lower. */
  ghost function LoweredCounts(w: World, i: int): seq<int>
    requires 0 <= i < |w.pods| && 0 <= RackOf(w, i) < |w.sts|
  {
    var k := RackOf(w, i);
    Replicas(w)[k := Replicas(w)[k] - 1]
  }

  // ----- A pass that lowers -----

  /** The rack lowered, the claim deleted if there is one, and the host ID forgotten. */
  function CleanedUp(w: World, i: int, k: int): World
    requires 0 <= i < |w.pods| && 0 <= k < |w.sts|
  {
    var lowered := LoweredFor(w, i, k);
    if w.pods[i].info.hasPvc then ForgetHostId(lowered, w.pods[i].info.name) else lowered
  }

  lemma CleanUpStep(c: Check, w: World, i: int)
    requires WellFormed(w) && WellNamed(w) && OneLeaver(w) && MayLower(w, i) && c.DecommissioningNodes?
    ensures StepSpec(c, w, CleanedUp(w, i, RackOf(w, i)), if w.pods[i].info.hasPvc then Requeue else Error)
  {
    hide CleanedUp, DecommissioningSpec, WellNamed, OneLeaver;
    CleanUpAllowed(w, i);
  }

  lemma CleanUpAllowed(w: World, i: int)
    requires WellNamed(w) && OneLeaver(w) && MayLower(w, i)
    ensures DecommissioningSpec(w, CleanedUp(w, i, RackOf(w, i)), if w.pods[i].info.hasPvc then Requeue else Error)
  {
    hide LoweredFor, ForgetHostId, StsIndex, IsDoneDecommissioning;
    assert FirstDc(w, i, IsDecommissioning) by {
      assert forall j :: InDc(w, j) && IsDecommissioning(w.pods[j]) ==> Leaving(w, j);
    }
    assert !NoDc(w, IsDecommissioning);
  }

  lemma CleanUpCounts(w: World, i: int)
    requires WellNamed(w) && MayLower(w, i)
    ensures Replicas(CleanedUp(w, i, RackOf(w, i))) == LoweredCounts(w, i)
  {
    hide HasSuffix, LastPodSuffix, StsIndex;
    LastPodOrdinal(w, i, w.sts[RackOf(w, i)].replicas);
  }

  /** Whoever may lower does in some pass. */
  lemma LowersPass(w: World, i: int) returns (w': World)
    requires WellFormed(w) && WellNamed(w) && OneLeaver(w) && MayLower(w, i)
    ensures PassSpec(w, w') && Replicas(w') == LoweredCounts(w, i)
  {
    hide StepSpec, Reaches, Told, IsDoneDecommissioning, CleanedUp, StsIndex, OneLeaver, WellNamed, LoweredCounts;
    var ids := OldIds(w);
    var m := Told(w, ids);
    NothingLearned(w);
    ToldStillLowers(w, ids, i);
    ToldReaches(w, ids);
    w' := CleanedUp(m, i, RackOf(m, i));
    CleanUpStep(CheckAt(5), m, i);
    CleanUpCounts(m, i);
    assert EndsAt(5, w, w', if m.pods[i].info.hasPvc then Requeue else Error);
  }

  lemma ToldStillLowers(w: World, ids: map<string, string>, i: int)
    requires WellFormed(w) && WellNamed(w) && OneLeaver(w) && MayLower(w, i) && HostIdsRefreshed(w, ids)
    ensures var m := Told(w, ids);
            && WellFormed(m) && WellNamed(m) && OneLeaver(m) && MayLower(m, i) && Admitted(w) && ClaimsPass(w)
            && LoweredCounts(m, i) == LoweredCounts(w, i)
  {
    hide Told, StatusOf, With, HostIdsRefreshed, IsDoneDecommissioning;
    var m := Told(w, ids);
    ToldShape(w, ids);
    ToldConditions(w, ids, ScalingDown);
    ToldConditions(w, ids, DcValid);
    forall j | Leaving(m, j) ensures Leaving(w, j) && LeavesEnd(m, j) {
      assert Leaving(w, j) && LeavesEnd(w, j);
    }
    assert Replicas(m) == Replicas(w);
  }

  /** And nothing else changes the counts while a pod is leaving. */
  lemma LoweredOnlyIf(w: World, w': World, i: int)
    requires WellFormed(w) && WellNamed(w) && OneLeaver(w) && Leaving(w, i) && PassSpec(w, w')
    ensures Replicas(w') == Replicas(w) || (MayLower(w, i) && Replicas(w') == LoweredCounts(w, i))
  {
    hide StepSpec, IsDoneDecommissioning;
    LeaverIsFollowedDown(w, w', i);
    if Replicas(w') != Replicas(w) {
      var k := RackOf(w, i);
      assert w'.sts[k].replicas != w.sts[k].replicas;
      assert Replicas(w') == LoweredCounts(w, i);
      ChangedBehindOpening(w, w', i);
    }
  }

  lemma ChangedBehindOpening(w: World, w': World, i: int)
    requires WellFormed(w) && WellNamed(w) && OneLeaver(w) && Leaving(w, i) && PassSpec(w, w') && Replicas(w') != Replicas(w)
    ensures Admitted(w) && ClaimsPass(w)
  {
    hide StepSpec;
    var k, m, r := PassEnd(w, w');
    if k <= 4 {
      UnchangedBefore(k, w, m);
      UnchangedAt(k, m, w', r);
    } else {
      ReachesOpened(k, w, m);
    }
  }

  lemma UnchangedAt(k: nat, w: World, w': World, r: Result)
    requires k <= 4 && StepSpec(CheckAt(k), w, w', r)
    ensures Replicas(w') == Replicas(w)
  {
    SameReplicas(CheckAt(k), w, w', r);
  }

  lemma {:induction false} UnchangedBefore(k: nat, w0: World, w: World)
    requires k <= 4 && Reaches(k, w0, w)
    ensures Replicas(w) == Replicas(w0)
  {
    hide StepSpec;
    if k > 0 {
      var m := Before(k, w0, w);
      UnchangedBefore(k - 1, w0, m);
      UnchangedAt(k - 1, m, w, Continue);
    }
  }

  lemma {:induction false} ReachesOpened(k: nat, w0: World, w: World)
    requires k >= 5 && Reaches(k, w0, w)
    ensures Admitted(w0) && ClaimsPass(w0)
  {
    hide StepSpec, Told;
    if k == 5 {
      var ids := ReachesTold(w0, w);
    } else {
      var m := Before(k, w0, w);
      ReachesOpened(k - 1, w0, m);
    }
  }

  // ----- Shares -----

  /** No rack that was at its share or above falls below. */
  ghost predicate KeepsShares(a: seq<int>, b: seq<int>, size: int) {
    a != [] && |b| == |a| && HoldsShares(a, b, size, 0)
  }

  /** Every pass over a running datacenter keeps racks at their shares, if and only if no rack at its
      share exactly is still to be lowered for a leaving pod found done. */
  lemma SharesKeptExact(w: World)
    requires WellFormed(w) && WellNamed(w) && OneLeaver(w) && !w.dc.spec.stopped
    ensures (forall w' :: PassSpec(w, w') ==> KeepsShares(Replicas(w), Replicas(w'), w.dc.spec.size))
            <==> forall i :: MayLower(w, i) ==> w.pods[i].info.ordinal + 1 != Share(w.dc.spec.size, |w.sts|, RackOf(w, i))
  {
    hide StepSpec, Reaches, PassSpec, KeepsShares, Share, StsIndex, WellNamed, OneLeaver, IsDoneDecommissioning;
    if i :| MayLower(w, i) && w.pods[i].info.ordinal + 1 == Share(w.dc.spec.size, |w.sts|, RackOf(w, i)) {
      var w' := LowersPass(w, i);
      FallsBelow(w, i);
      assert !KeepsShares(Replicas(w), Replicas(w'), w.dc.spec.size);
    } else {
      forall w' | PassSpec(w, w') ensures KeepsShares(Replicas(w), Replicas(w'), w.dc.spec.size) {
        SharesKept(w, w');
      }
    }
  }

  lemma FallsBelow(w: World, i: int)
    requires MayLower(w, i) && w.pods[i].info.ordinal + 1 == Share(w.dc.spec.size, |w.sts|, RackOf(w, i))
    ensures !KeepsShares(Replicas(w), LoweredCounts(w, i), w.dc.spec.size)
  {
    hide Share;
    var k := RackOf(w, i);
    assert Replicas(w)[k] >= Share(w.dc.spec.size, |w.sts|, k) > LoweredCounts(w, i)[k];
  }

  lemma SharesKept(w: World, w': World)
    requires WellFormed(w) && WellNamed(w) && OneLeaver(w) && !w.dc.spec.stopped && PassSpec(w, w')
    requires forall i :: MayLower(w, i) ==> w.pods[i].info.ordinal + 1 != Share(w.dc.spec.size, |w.sts|, RackOf(w, i))
    ensures KeepsShares(Replicas(w), Replicas(w'), w.dc.spec.size)
  {
    hide StepSpec, Reaches, WellNamed, Share;
    if i :| Leaving(w, i) {
      LoweredOnlyIf(w, w', i);
    } else {
      var k, m, r := PassEnd(w, w');
      var n := MovedAt(k, w, m, w', r);
    }
  }

  /** A rack at its share, three nodes wanted and three there, whose last pod is leaving since two
      were wanted. */
  function Example(): World {
    var info := PodInfo(StsPodName(StsName("c", "dc", "r"), 2), "dc", "r", 2, "n", "10.0.0.3", 0,
                        true, true, false, false, false, true, "n", false, false);
    World(Env(true, true, true, false, 0, [], map[]),
          [PodView(info, Decommissioning, false, None, false)],
          [StsView("r", StsStatus(1, 1, 3, 3, 3, 3), 3, 0)],
          DcView(Spec("c", "dc", ["r"], 3, false, 0, false, [0]), [], false,
                 [Condition(ScalingDown, True, 0)], map[], [], 0, ProgressUpdating))
  }

  /** Every pass over it takes the rack below its share. */
  lemma ExampleFalls()
    ensures Replicas(Example()) == Split(3, 1) && exists w' :: PassSpec(Example(), w')
    ensures forall w' :: PassSpec(Example(), w') ==> Replicas(w') == [2]
  {
    hide StepSpec, Reaches, PassSpec, Digits;
    var w := Example();
    assert Replicas(w) == [3] && Share(3, 1, 0) == 3;
    assert StsIndex(w.sts, "r") == 0;
    assert Leaving(w, 0) && LeavesEnd(w, 0);
    assert MayLower(w, 0);
    var w1 := LowersPass(w, 0);
    forall w' | PassSpec(w, w') ensures Replicas(w') == [2] {
      DecommissionRuns.PassLowers(w, w', 0);
    }
  }
}
