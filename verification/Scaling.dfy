/** Stopping a datacenter, growing its racks, and giving nodes up one at a time. */
module Scaling {
  import opened Conditions
  import opened Racks
  import opened Names
  import opened Model
  import opened Specs
  import opened Cluster

  // ----- Resizing racks one after the other -----

  lemma ResizedNone(sts: seq<StsView>, targets: seq<int>)
    requires |sts| == |targets|
    ensures Resized(sts, targets, 0) == sts
  {
  }

  lemma ResizedNext(sts: seq<StsView>, targets: seq<int>, k: nat)
    requires k < |sts| == |targets|
    ensures var s := Resized(sts, targets, k);
            Resized(sts, targets, k + 1) == s[k := s[k].(replicas := targets[k])]
    ensures targets[k] == sts[k].replicas ==> Resized(sts, targets, k + 1) == Resized(sts, targets, k)
  {
    var s, t := Resized(sts, targets, k), Resized(sts, targets, k + 1);
    assert s[k] == sts[k];
    if targets[k] == sts[k].replicas {
      assert sts[k].(replicas := targets[k]) == sts[k];
      assert t == s;
    }
  }

  /** `w'` is `w` with new conditions and progress and rack `k` resized. */
  ghost predicate RackMoved(w: World, w': World, k: nat, n: int, cs: seq<Condition>) {
    k < |w.sts| && w' == Moved(w, w.sts[k := w.sts[k].(replicas := n)], cs, ProgressUpdating)
  }

  /** Moving a rack failed at one of its three writes. */
  ghost predicate MoveCut(w: World, w': World, cs: seq<Condition>) {
    || w' == w
    || w' == Moved(w, w.sts, cs, w.dc.progress)
    || w' == Moved(w, w.sts, cs, ProgressUpdating)
  }

  /** Patches the conditions if they changed, then the progress, then the StatefulSet. */
  method MoveRack(rc: Context, k: nat, n: int, cs: seq<Condition>) returns (ok: bool)
    requires rc.Valid() && k < |rc.sts|
    modifies rc.dc, rc.sts[k]
    ensures ok ==> RackMoved(old(rc.View()), rc.View(), k, n, cs)
    ensures !ok ==> !rc.env.apiUp && MoveCut(old(rc.View()), rc.View(), cs)
  {
    if cs != rc.dc.conditions {
      ok := rc.PatchConditions(cs);
      if !ok {
        return;
      }
    }
    ok := rc.UpdateRackNodeCount(k, n);
  }

  // ----- Stopping -----

  method CheckRackStoppedState(rc: Context) returns (r: Result)
    requires rc.Valid()
    modifies rc.dc, rc.sts
    ensures StoppedStateSpec(old(rc.View()), rc.View(), r)
  {
    if !rc.dc.spec.stopped {
      return Continue;
    }
    ghost var w := rc.View();
    var announced := With(With(rc.dc.conditions, DcStopped, True, rc.env.now), DcReady, False, rc.env.now);
    var racksUpdated, ok := StopRacks(rc, announced);
    r := if !ok then Error else if racksUpdated then Done else Continue;
  }

  ghost predicate StoppedUpTo(w: World, w': World, n: nat, cs: seq<Condition>, any: bool) {
    && n <= |w.sts|
    && w' == Moved(w, Resized(w.sts, StopTargets(w.sts), n),
                   if any then cs else w.dc.conditions, if any then ProgressUpdating else w.dc.progress)
  }

  method StopRacks(rc: Context, announced: seq<Condition>) returns (racksUpdated: bool, ok: bool)
    requires rc.Valid()
    modifies rc.dc, rc.sts
    ensures ok ==> (racksUpdated <==> exists k :: 0 <= k < |rc.sts| && old(rc.View()).sts[k].replicas > 0)
    ensures ok ==> StoppedUpTo(old(rc.View()), rc.View(), |rc.sts|, announced, racksUpdated)
    ensures ok && !racksUpdated ==> rc.View() == old(rc.View())
    ensures !ok ==> !rc.env.apiUp && (exists k :: 0 <= k < |rc.sts| && old(rc.View()).sts[k].replicas > 0)
    ensures !ok ==> CutShort(old(rc.View()), rc.View(), Moved(old(rc.View()), Resized(old(rc.View()).sts,
                      StopTargets(old(rc.View()).sts), |rc.sts|), announced, ProgressUpdating))
    ensures !ok ==> rc.dc.conditions == old(rc.dc.conditions) || rc.dc.conditions == announced
  {
    hide CutShort, StoppedUpTo;
    ghost var w := rc.View();
    racksUpdated := false;
    NoneStopped(w, announced);
    for k := 0 to |rc.sts|
      invariant racksUpdated <==> exists l :: 0 <= l < k && w.sts[l].replicas > 0
      invariant StoppedUpTo(w, rc.View(), k, announced, racksUpdated)
      invariant !racksUpdated ==> rc.View() == w
    {
      if rc.sts[k].replicas > 0 {
        ok := StopRack(rc, k, announced, w, racksUpdated);
        if !ok {
          return;
        }
        racksUpdated := true;
      } else {
        NothingToStop(w, rc.View(), k, announced, racksUpdated);
      }
    }
    ok := true;
  }

  lemma NoneStopped(w: World, cs: seq<Condition>)
    ensures StoppedUpTo(w, w, 0, cs, false)
  {
    ResizedNone(w.sts, StopTargets(w.sts));
  }

  lemma NothingToStop(w: World, v: World, k: nat, cs: seq<Condition>, any: bool)
    requires k < |w.sts| && StoppedUpTo(w, v, k, cs, any) && v.sts[k].replicas <= 0
    ensures w.sts[k].replicas <= 0 && StoppedUpTo(w, v, k + 1, cs, any)
  {
    ResizedNext(w.sts, StopTargets(w.sts), k);
  }

  method StopRack(rc: Context, k: nat, announced: seq<Condition>, ghost w: World, ghost any: bool) returns (ok: bool)
    requires rc.Valid() && k < |rc.sts| == |w.sts| && StoppedUpTo(w, rc.View(), k, announced, any) && rc.sts[k].replicas > 0
    modifies rc.dc, rc.sts[k]
    ensures w.sts[k].replicas > 0
    ensures ok ==> StoppedUpTo(w, rc.View(), k + 1, announced, true)
    ensures !ok ==> !rc.env.apiUp
    ensures !ok ==> CutShort(w, rc.View(), Moved(w, Resized(w.sts, StopTargets(w.sts), |w.sts|), announced, ProgressUpdating))
    ensures !ok ==> rc.dc.conditions == w.dc.conditions || rc.dc.conditions == announced
  {
    ghost var v := rc.View();
    ResizedNext(w.sts, StopTargets(w.sts), k);
    assert v.sts[k] == w.sts[k];
    ok := MoveRack(rc, k, 0, announced);
    if !ok {
      StoppingCut(w, v, rc.View(), k, announced, any);
    }
  }

  lemma StoppingCut(w: World, v: World, v': World, k: nat, cs: seq<Condition>, any: bool)
    requires StoppedUpTo(w, v, k, cs, any) && MoveCut(v, v', cs)
    ensures CutShort(w, v', Moved(w, Resized(w.sts, StopTargets(w.sts), |w.sts|), cs, ProgressUpdating))
    ensures v'.dc.conditions == w.dc.conditions || v'.dc.conditions == cs
  {
    assert UpTo(w.sts, v'.sts, Resized(w.sts, StopTargets(w.sts), |w.sts|), k);
  }

  // ----- Growing -----

  method CheckRackScale(rc: Context) returns (r: Result)
    requires rc.Valid()
    modifies rc.dc, rc.sts
    ensures RackScaleSpec(old(rc.View()), rc.View(), r)
  {
    var desired := SplitRacks(Wanted(rc.dc.spec), |rc.dc.spec.racks|);
    r := GrowRacks(rc, desired);
  }

  /** The first `n` racks grown, `c` of them actually, under the conditions `cs`. */
  ghost predicate GrownUpTo(w: World, w': World, n: nat, desired: seq<int>, c: nat, cs: seq<Condition>)
    requires |w.sts| == |desired|
  {
    && n <= |w.sts| && c == GrowCount(w.sts, desired, n)
    && w' == Moved(w, Resized(w.sts, GrowTargets(w.sts, desired), n), cs,
                   if c == 0 then w.dc.progress else ProgressUpdating)
  }

  method GrowRacks(rc: Context, desired: seq<int>) returns (r: Result)
    requires rc.Valid() && |desired| == |rc.sts|
    modifies rc.dc, rc.sts
    ensures ScaleSpec(old(rc.View()), rc.View(), r, desired)
  {
    ghost var w := rc.View();
    ResizedNone(w.sts, GrowTargets(w.sts, desired));
    ghost var c := 0;
    for k := 0 to |rc.sts|
      invariant GrownUpTo(w, rc.View(), k, desired, c, rc.dc.conditions)
      invariant rc.dc.conditions == GrowConditions(w.dc.conditions, c, rc.env.now)
    {
      ghost var before := rc.View();
      assert before.sts[k] == w.sts[k];
      if rc.sts[k].replicas < desired[k] {
        var next := Announce(rc.dc.conditions, rc.env.now);
        GrowConditionsNext(w.dc.conditions, c, rc.env.now);
        var ok := MoveRack(rc, k, desired[k], next);
        if !ok {
          CutShortGrowth(w, before, rc.View(), desired, k, next, c);
          return Error;
        }
        GrownStep(w, before, rc.View(), desired, k, c, next);
        c := c + 1;
      } else {
        GrownStep(w, before, rc.View(), desired, k, c, rc.dc.conditions);
      }
    }
    r := Continue;
  }

  lemma GrownStep(w: World, before: World, after: World, desired: seq<int>, k: nat, c: nat, next: seq<Condition>)
    requires k < |w.sts| == |desired| && GrownUpTo(w, before, k, desired, c, before.dc.conditions)
    requires w.sts[k].replicas < desired[k] ==> RackMoved(before, after, k, desired[k], next)
    requires w.sts[k].replicas >= desired[k] ==> after == before && next == before.dc.conditions
    ensures GrownUpTo(w, after, k + 1, desired, if w.sts[k].replicas < desired[k] then c + 1 else c, next)
  {
    ResizedNext(w.sts, GrowTargets(w.sts, desired), k);
  }

  /** Growing out of a stop resumes the datacenter; any other growth scales it up. */
  function Announce(cs: seq<Condition>, now: int): seq<Condition> {
    if StatusOf(cs, DcStopped) == True
    then With(With(cs, DcStopped, False, now), Resuming, True, now)
    else With(cs, ScalingUp, True, now)
  }

  lemma GrowConditionsNext(cs: seq<Condition>, n: nat, now: int)
    ensures Announce(GrowConditions(cs, n, now), now) == GrowConditions(cs, n + 1, now)
  {
  }

  lemma {:induction false} GrowCountMonotone(sts: seq<StsView>, desired: seq<int>, a: nat, b: nat)
    requires a <= b <= |sts| == |desired|
    ensures GrowCount(sts, desired, a) <= GrowCount(sts, desired, b)
  {
    if a < b {
      GrowCountMonotone(sts, desired, a, b - 1);
    }
  }

  lemma CutShortGrowth(w: World, before: World, w': World, desired: seq<int>, k: nat, next: seq<Condition>, c: nat)
    requires k < |w.sts| == |desired| && w.sts[k].replicas < desired[k]
    requires GrownUpTo(w, before, k, desired, c, before.dc.conditions)
    requires MoveCut(before, w', next)
    ensures CutShort(w, w', AllGrown(w, desired))
    ensures c + 1 <= GrowCount(w.sts, desired, |w.sts|)
    ensures w'.dc.conditions == before.dc.conditions || w'.dc.conditions == next
  {
    hide GrowConditions, Resized, GrowTargets, UpTo;
    GrownPrefix(w.sts, before.sts, GrowTargets(w.sts, desired), k);
    assert GrowCount(w.sts, desired, k + 1) == c + 1;
    GrowCountMonotone(w.sts, desired, k + 1, |w.sts|);
  }

  lemma GrownPrefix(sts: seq<StsView>, sts': seq<StsView>, targets: seq<int>, k: nat)
    requires k <= |sts| == |targets| && sts' == Resized(sts, targets, k)
    ensures UpTo(sts, sts', Resized(sts, targets, |sts|), k)
  {
  }

  // ----- Giving nodes up -----

  method TotalReplicas(rc: Context) returns (n: int)
    requires rc.Valid()
    ensures n == Sum(Replicas(rc.View()))
  {
    n := 0;
    ghost var s := Replicas(rc.View());
    for k := 0 to |rc.sts|
      invariant n == Sum(s[..k])
    {
      assert s[..k + 1][..k] == s[..k];
      n := n + rc.sts[k].replicas;
    }
    assert s[..|s|] == s;
  }

  method DecommissionNodes(rc: Context) returns (r: Result)
    requires rc.Valid()
    modifies rc.dc, rc.clusterPods
    ensures DecommissionNodesSpec(old(rc.View()), rc.View(), r)
  {
    var currentSize := TotalReplicas(rc);
    if currentSize <= rc.dc.spec.size {
      return Continue;
    }
    var desiredSize := currentSize - 1;
    if desiredSize < |rc.dc.spec.racks| {
      return Error;
    }
    var rackNodeCounts := SplitRacks(desiredSize, |rc.dc.spec.racks|);
    ghost var s := Replicas(rc.View());
    for k := 0 to |rc.sts|
      invariant forall j :: 0 <= j < k ==> s[j] <= Share(desiredSize, |s|, j)
      invariant rc.View() == old(rc.View())
    {
      if rc.sts[k].replicas > rackNodeCounts[k] {
        assert FirstExcess(s, k);
        r := ShrinkRack(rc, k);
        return;
      }
    }
    ghost var found := ExcessExists(s);
    assert false;
  }

  method ShrinkRack(rc: Context, k: nat) returns (r: Result)
    requires rc.Valid() && k < |rc.sts|
    modifies rc.dc, rc.clusterPods
    ensures ShrinkSpec(old(rc.View()), rc.View(), k, r)
  {
    ghost var w := rc.View();
    var maxReplicas := rc.sts[k].replicas;
    var ok := rc.SetConditionStatus(ScalingDown, True);
    if !ok {
      return Error;
    }
    ok := rc.SetOperatorProgress(ProgressUpdating);
    if !ok {
      return Error;
    }
    assert rc.View() == Shrinking(w);
    r := DecommissionNodeOnRack(rc, k, maxReplicas, w);
  }

  method DecommissionNodeOnRack(rc: Context, k: nat, maxReplicas: int, ghost w: World) returns (r: Result)
    requires rc.Valid() && k < |rc.sts| && maxReplicas == rc.sts[k].replicas
    requires rc.View() == Shrinking(w)
    modifies rc.dc, rc.clusterPods
    ensures ShrinkSpec(w, rc.View(), k, r)
  {
    var rackName := rc.sts[k].rack;
    var m := rc.FindDc((p: PodView) => MatchesLast(p, rackName, maxReplicas));
    if m == |rc.dcPods| {
      assert forall i :: !FirstLastPod(w, i, k) by {
        forall i ensures !FirstLastPod(w, i, k) {
          assert InDc(w, i) ==> InDc(rc.View(), i);
        }
      }
      return Error;
    }
    var pod := rc.dcPods[m];
    assert w.pods == rc.View().pods;
    assert FirstLastPod(w, rc.at[m], k);
    if !pod.info.mgmtUp {
      assert forall i :: FirstLastPod(w, i, k) ==> i == rc.at[m];
      return Error;
    }
    if !rc.env.canAbsorb {
      var ok := rc.SetConditionStatus(DcValid, False);
      return Error;
    }
    // the call that starts the decommission may fail: it is repeated later
    var attempt := rc.Call();
    var ok := rc.PatchState(pod, rc.at[m], Decommissioning);
    r := if ok then Requeue else Error;
  }

  method FindSts(rc: Context, rack: string) returns (k: int)
    requires rc.Valid()
    ensures k == StsIndex(rc.View().sts, rack)
  {
    ghost var views := rc.View().sts;
    for l := 0 to |rc.sts|
      invariant forall j :: 0 <= j < l ==> rc.sts[j].rack != rack
    {
      if rc.sts[l].rack == rack {
        assert views[l].rack == rack;
        return l;
      }
    }
    assert forall j :: 0 <= j < |views| ==> views[j].rack != rack;
    k := -1;
  }

  method CheckDecommissioningNodes(rc: Context) returns (r: Result)
    requires rc.Valid()
    modifies rc.dc, rc.sts
    ensures DecommissioningSpec(old(rc.View()), rc.View(), r)
  {
    if StatusOf(rc.dc.conditions, ScalingDown) != True {
      return Continue;
    }
    var k := rc.FindDc(IsDecommissioning);
    if k == |rc.dcPods| {
      var ok := rc.SetConditionStatus(ScalingDown, False);
      r := if ok then Continue else Error;
      return;
    }
    var pod := rc.dcPods[k];
    if IsDoneDecommissioning(pod.View(), rc.env.endpoints) {
      r := CleanUpAfterDecommissionedPod(rc, pod, rc.at[k]);
    } else {
      if !HasStartedDecommissioning(pod.View(), rc.env.endpoints) {
        var attempt := rc.Call();
      }
      r := Requeue;
    }
  }

  method CleanUpAfterDecommissionedPod(rc: Context, pod: Pod, ghost i: int) returns (r: Result)
    requires rc.Valid() && 0 <= i < |rc.clusterPods| && rc.clusterPods[i] == pod
    modifies rc.dc, rc.sts
    ensures CleanUpSpec(old(rc.View()), rc.View(), i, r)
  {
    var k := FindSts(rc, pod.info.rack);
    if k == -1 {
      return Error;
    }
    var ok := RemoveDecommissionedPodFromSts(rc, pod, i, k);
    if !ok {
      return Error;
    }
    r := ForgetPod(rc, pod);
  }

  /** Deletes the pod's claims and drops its host ID from the status. */
  method ForgetPod(rc: Context, pod: Pod) returns (r: Result)
    modifies rc.dc
    ensures r == Requeue ==> pod.info.hasPvc && rc.View() == ForgetHostId(old(rc.View()), pod.info.name)
    ensures r != Requeue ==> r == Error && rc.View() == old(rc.View()) && (pod.info.hasPvc ==> !rc.env.apiUp)
  {
    if !pod.info.hasPvc {
      return Error;
    }
    var ok := rc.Call();
    if !ok {
      return Error;
    }
    ok := rc.Call();
    if !ok {
      return Error;
    }
    rc.dc.hostIds := rc.dc.hostIds - {pod.info.name};
    r := Requeue;
  }

  method RemoveDecommissionedPodFromSts(rc: Context, pod: Pod, ghost i: int, k: nat) returns (ok: bool)
    requires rc.Valid() && 0 <= i < |rc.clusterPods| && rc.clusterPods[i] == pod && k < |rc.sts|
    modifies rc.dc, rc.sts[k]
    ensures ok ==> rc.View() == LoweredFor(old(rc.View()), i, k)
    ensures !ok ==> !rc.env.apiUp
    ensures !ok ==> rc.View() == old(rc.View()) || rc.View() == SetProgress(old(rc.View()), ProgressUpdating)
    ensures !ok ==> LoweredFor(old(rc.View()), i, k) != old(rc.View())
  {
    ghost var w := rc.View();
    var maxReplicas := rc.sts[k].replicas;
    if HasSuffix(pod.info.name, LastPodSuffix(maxReplicas)) {
      assert LoweredFor(w, i, k).sts[k].replicas != w.sts[k].replicas;
      ok := rc.UpdateRackNodeCount(k, maxReplicas - 1);
    } else {
      ok := true;
    }
  }
}
