/** How far a pass may come, exactly, in terms of the world before it: to the check that follows
    leaving nodes, and to the scale check. */
module Approach {
  import opened Conditions
  import opened Lists
  import opened Model
  import opened Specs
  import opened EmmSpecs
  import opened Pass
  import opened Frames
  import opened Opening
  import opened DrainHandover

  // ----- As far as the check that follows leaving nodes -----

  /** The status recorded with these host IDs. */
  ghost function Told(w: World, ids: map<string, string>): World {
    w.(dc := Recorded(w.dc, ids, RemoveEach(w.dc.replacements, OverNames(w)), w.env.now))
  }

  lemma ToldIsAllowed(k: nat, w: World, ids: map<string, string>)
    requires WellFormed(w) && 3 <= k <= 4 && HostIdsRefreshed(w, ids)
    ensures StepSpec(CheckAt(k), if k == 3 then w else Told(w, ids), Told(w, ids), Continue)
  {
    hide RemoveEach, AppendAbsent;
  }

  lemma ToldReaches(w: World, ids: map<string, string>)
    requires WellFormed(w) && Admitted(w) && ClaimsPass(w) && HostIdsRefreshed(w, ids)
    ensures Reaches(5, w, Told(w, ids))
  {
    hide StepSpec, Told, HostIdsRefreshed;
    OpensTo(3, w);
    ToldIsAllowed(3, w, ids);
    ReachesNext(3, w, w, Told(w, ids));
    ToldIsAllowed(4, w, ids);
    ReachesNext(4, w, Told(w, ids), Told(w, ids));
  }

  lemma StatusTells(k: nat, w: World, w': World) returns (ids: map<string, string>)
    requires 3 <= k <= 4 && StepSpec(CheckAt(k), w, w', Continue)
    ensures k == 3 ==> HostIdsRefreshed(w, ids) && w' == Told(w, ids)
    ensures k == 4 ==> w' == w
  {
    hide Recorded, HostIdsRefreshed;
    if k == 3 {
      ids :| HostIdsRefreshed(w, ids)
        && w' == w.(dc := Recorded(w.dc, ids, RemoveEach(w.dc.replacements, OverNames(w)), w.env.now));
    } else {
      ids := w.dc.hostIds;
    }
  }

  lemma ReachesTold(w0: World, w: World) returns (ids: map<string, string>)
    requires Reaches(5, w0, w)
    ensures Admitted(w0) && ClaimsPass(w0) && HostIdsRefreshed(w0, ids) && w == Told(w0, ids)
  {
    hide StepSpec, Told, HostIdsRefreshed;
    var b := Before(5, w0, w);
    var a := Before(4, w0, b);
    OpensUnchanged(3, w0, a);
    ids := StatusTells(3, a, b);
    var same := StatusTells(4, b, w);
  }

  /** Nobody's host ID learned. */
  ghost function OldIds(w: World): map<string, string> {
    map n | n in w.dc.hostIds.Keys + PodNames(w) :: HostId(w.dc.hostIds, n)
  }

  lemma NothingLearned(w: World)
    ensures HostIdsRefreshed(w, OldIds(w))
  {
    forall i | InDc(w, i) ensures w.pods[i].info.name in OldIds(w) {
      assert w.pods[i].info.name in PodNames(w);
    }
  }

  /** Recording the status leaves the other conditions alone. */
  lemma ToldConditions(w: World, ids: map<string, string>, k: ConditionType)
    requires k != ReplacingNodes
    ensures Condition_(Told(w, ids), k) == Condition_(w, k)
  {
    hide With, StatusOf;
    WithStatus(w.dc.conditions, ReplacingNodes, True, w.env.now, k);
  }

  // ----- As far as the scale check -----

  /** A pass may get as far as the scale check. */
  ghost predicate MayScale(w: World) {
    var k := 8;
    exists m :: Reaches(k, w, m)
  }

  /** Nobody leaves any more. */
  ghost function DoneFollowing(w: World): World {
    if Condition_(w, ScalingDown) == True then Setting(w, ScalingDown, False) else w
  }

  function Knowing(w: World, ids: map<string, string>): World {
    w.(dc := w.dc.(hostIds := ids))
  }

  /** No check before the scale check ends the pass: no pod need be found without its claim, nobody
      is leaving, a stopped datacenter has no replicas left, and the drain check hands over. */
  ghost predicate WayToScale(w: World, ids: map<string, string>) {
    && Admitted(w) && ClaimsPass(w) && HostIdsRefreshed(w, ids)
    && (Condition_(w, ScalingDown) == True ==> NoDc(w, IsDecommissioning))
    && (w.dc.spec.stopped ==> forall k :: 0 <= k < |w.sts| ==> w.sts[k].replicas <= 0)
    && HandsOver(Knowing(w, ids))
  }

  /** What a pass brings to the scale check. */
  ghost function BroughtTo(w: World, ids: map<string, string>): World {
    DoneFollowing(Told(w, ids))
  }

  lemma BroughtConditions(w: World, ids: map<string, string>, k: ConditionType)
    requires k != ReplacingNodes && k != ScalingDown
    ensures Condition_(BroughtTo(w, ids), k) == Condition_(w, k)
  {
    hide With, StatusOf;
    var m := Told(w, ids);
    ToldConditions(w, ids, k);
    WithStatus(m.dc.conditions, ScalingDown, False, m.env.now, k);
  }

  lemma BroughtAlike(w: World, ids: map<string, string>)
    ensures SameToDrains(Knowing(w, ids), BroughtTo(w, ids)) && SameToDrains(BroughtTo(w, ids), Knowing(w, ids))
  {
    hide With, StatusOf;
    BroughtConditions(w, ids, DcInitialized);
    BroughtConditions(w, ids, DcStopped);
  }

  lemma BroughtShape(w: World, ids: map<string, string>)
    ensures var m := BroughtTo(w, ids);
            && m.pods == w.pods && m.sts == w.sts && m.env == w.env && m.dc.spec == w.dc.spec && m.dc.hostIds == ids
            && m.dc.lastRestart == w.dc.lastRestart && m.dc.restartRequested == w.dc.restartRequested
            && m.dc.replacements == AppendAbsent(RemoveEach(w.dc.replacements, OverNames(w)), w.dc.replaceNodes)
  {
  }

  lemma FollowHandsOver(c: Check, w: World, w': World)
    requires WellFormed(w) && c.DecommissioningNodes?
    ensures StepSpec(c, w, w', Continue) <==>
              w' == DoneFollowing(w) && (Condition_(w, ScalingDown) == True ==> NoDc(w, IsDecommissioning))
  {
    hide With, StatusOf, LoweredFor;
  }

  lemma StopHandsOver(c: Check, w: World, w': World)
    requires WellFormed(w) && c.StoppedState?
    ensures StepSpec(c, w, w', Continue) <==>
              w' == w && (w.dc.spec.stopped ==> forall k :: 0 <= k < |w.sts| ==> w.sts[k].replicas <= 0)
  {
  }

  lemma DrainsHandOverExact(c: Check, w: World, w': World)
    requires WellFormed(w) && c.Drains?
    ensures StepSpec(c, w, w', Continue) <==> w' == w && HandsOver(w)
  {
    hide EmmSpec, HandsOver;
    HandsOverExact(w, w');
  }

  lemma ScaleReached(w: World, ids: map<string, string>)
    requires WellFormed(w) && WayToScale(w, ids)
    ensures Reaches(8, w, BroughtTo(w, ids))
  {
    hide StepSpec, Told, HandsOver, HostIdsRefreshed, DoneFollowing, StatusOf, With;
    var a, b := Told(w, ids), BroughtTo(w, ids);
    ToldReaches(w, ids);
    ReachShape(5, w, a);
    ToldConditions(w, ids, ScalingDown);
    BroughtShape(w, ids);
    ToldShape(w, ids);
    FollowHandsOver(CheckAt(5), a, b);
    ReachesNext(5, w, a, b);
    StopHandsOver(CheckAt(6), b, b);
    ReachesNext(6, w, b, b);
    BroughtAlike(w, ids);
    SameHandsOver(Knowing(w, ids), b);
    DrainsHandOverExact(CheckAt(7), b, b);
    ReachesNext(7, w, b, b);
  }

  lemma ToldShape(w: World, ids: map<string, string>)
    ensures var m := Told(w, ids);
            m.pods == w.pods && m.sts == w.sts && m.env == w.env && m.dc.spec == w.dc.spec && m.dc.hostIds == ids
  {
  }

  lemma ReachesScale(w0: World, w: World) returns (ids: map<string, string>)
    requires WellFormed(w0) && Reaches(8, w0, w)
    ensures WayToScale(w0, ids) && w == BroughtTo(w0, ids)
  {
    hide StepSpec, Told, HandsOver, HostIdsRefreshed, DoneFollowing, StatusOf, With;
    var d := Before(8, w0, w);
    var c := Before(7, w0, d);
    var a := Before(6, w0, c);
    ReachShape(5, w0, a);
    ReachShape(6, w0, c);
    ReachShape(7, w0, d);
    ids := ReachesTold(w0, a);
    ToldShape(w0, ids);
    ToldConditions(w0, ids, ScalingDown);
    FollowHandsOver(CheckAt(5), a, c);
    StopHandsOver(CheckAt(6), c, d);
    DrainsHandOverExact(CheckAt(7), d, w);
    BroughtShape(w0, ids);
    BroughtAlike(w0, ids);
    SameHandsOver(w, Knowing(w0, ids));
  }

  /** A pass may come to the scale check exactly if, for some answers about host IDs, no check before
      it ends the pass. */
  lemma MayScaleExact(w: World)
    requires WellFormed(w)
    ensures MayScale(w) <==> exists ids :: WayToScale(w, ids)
  {
    hide StepSpec, Reaches, WayToScale, BroughtTo;
    var k := 8;
    if m :| Reaches(k, w, m) {
      var ids := ReachesScale(w, m);
    }
    if ids :| WayToScale(w, ids) {
      ScaleReached(w, ids);
    }
  }

  /** Without drains, host IDs do not matter. */
  lemma WayWithoutDrains(w: World)
    requires !w.env.pspEnabled && Admitted(w) && ClaimsPass(w)
    requires Condition_(w, ScalingDown) == True ==> NoDc(w, IsDecommissioning)
    requires w.dc.spec.stopped ==> forall k :: 0 <= k < |w.sts| ==> w.sts[k].replicas <= 0
    ensures WayToScale(w, OldIds(w))
  {
    NothingLearned(w);
  }
}
