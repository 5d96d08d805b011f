/** Rolling changes over a running datacenter, and the conditions a finished pass leaves. */
module Rollout {
  import opened Conditions
  import opened Model
  import opened Specs
  import opened Cluster

  // ----- Rolling restart -----

  method CheckRollingRestart(rc: Context) returns (r: Result)
    requires rc.Valid()
    modifies rc.dc, rc.clusterPods
    ensures RollingRestartSpec(old(rc.View()), rc.View(), r)
  {
    if rc.dc.restartRequested {
      var ok := AcceptRestart(rc);
      if !ok {
        return Error;
      }
    }
    r := DeleteFirstOld(rc);
  }

  /** Records the restart in the status, then takes the request off the spec. */
  method AcceptRestart(rc: Context) returns (ok: bool)
    requires rc.dc.restartRequested
    modifies rc.dc
    ensures rc.env.apiUp ==> ok
    ensures ok ==> rc.View() == RestartBegun(old(rc.View()))
    ensures !ok ==> rc.View() == old(rc.View()) || rc.View() == RestartAccepted(old(rc.View()))
  {
    hide With;
    ok := rc.Call();
    if !ok {
      return;
    }
    rc.dc.lastRestart := rc.env.now;
    rc.dc.conditions := With(rc.dc.conditions, RollingRestart, True, rc.env.now);
    ok := rc.Call();
    if !ok {
      return;
    }
    rc.dc.restartRequested := false;
  }

  method DeleteFirstOld(rc: Context) returns (r: Result)
    requires rc.Valid()
    modifies rc.clusterPods
    ensures var a := old(rc.View());
            if forall i :: InDc(a, i) ==> a.pods[i].info.created >= a.dc.lastRestart then rc.View() == a && r == Continue
            else exists i :: FirstOld(a, i) && DeletesPod(a, rc.View(), i, r, Done)
  {
    var cutoff := rc.dc.lastRestart;
    var k := rc.FindDc((p: PodView) => p.info.created < cutoff);
    if k == |rc.dcPods| {
      return Continue;
    }
    assert FirstOld(rc.View(), rc.at[k]);
    // draining the node first may fail: that is only logged
    var drained := rc.Call();
    var ok := rc.DeletePod(rc.dcPods[k], rc.at[k]);
    r := if ok then Done else Error;
  }

  // ----- Pod template -----

  method CheckRackPodTemplate(rc: Context) returns (r: Result)
    requires rc.Valid()
    modifies rc.dc, rc.sts
    ensures PodTemplateSpec(old(rc.View()), rc.View(), r)
  {
    ghost var w := rc.View();
    for k := 0 to |rc.sts|
      invariant rc.View() == w && k <= RolloutRacks(w)
      invariant forall j :: 0 <= j < k ==> UpToDate(w, j) && Settled(w.sts[j])
    {
      if rc.dc.spec.canary && k > 0 {
        return Continue;
      }
      if rc.sts[k].hash != rc.dc.spec.hashes[k] {
        assert FirstUnsettled(w, k);
        r := WriteTemplate(rc, k);
        return;
      }
      if !Settled(rc.sts[k].View()) {
        assert FirstUnsettled(w, k);
        return Requeue;
      }
    }
    r := Continue;
  }

  method WriteTemplate(rc: Context, k: nat) returns (r: Result)
    requires rc.Valid() && k < |rc.sts|
    modifies rc.dc, rc.sts[k]
    ensures TemplateWriteSpec(old(rc.View()), rc.View(), k, r)
  {
    var ok := rc.SetConditionStatus(Updating, True);
    if !ok {
      return Error;
    }
    ok := rc.SetOperatorProgress(ProgressUpdating);
    if !ok {
      return Error;
    }
    ok := PatchTemplate(rc, k);
    if !ok {
      return Error;
    }
    // the quiet period
    ok := rc.Call();
    r := if ok then Done else Error;
  }

  method PatchTemplate(rc: Context, k: nat) returns (ok: bool)
    requires rc.Valid() && k < |rc.sts|
    modifies rc.sts[k]
    ensures rc.env.apiUp ==> ok
    ensures rc.View() == var w := old(rc.View()); if ok then SetSts(w, k, w.sts[k].(hash := w.dc.spec.hashes[k])) else w
  {
    ok := rc.Call();
    if ok {
      rc.sts[k].hash := rc.dc.spec.hashes[k];
    }
  }

  // ----- Conditions -----

  /** Sets every condition of the list to false. */
  method SetAllFalse(cs0: seq<Condition>, kinds: seq<ConditionType>, now: int)
    returns (cs: seq<Condition>, updated: bool)
    ensures cs == AllFalse(cs0, kinds, now)
    ensures updated <==> exists k :: k in kinds && StatusOf(cs0, k) != False
    ensures forall k :: StatusOf(cs, k) == if k in kinds then False else StatusOf(cs0, k)
  {
    cs, updated := cs0, false;
    for i := 0 to |kinds|
      invariant AllFalse(cs, kinds[i..], now) == AllFalse(cs0, kinds, now)
      invariant forall k :: StatusOf(cs, k) == if k in kinds[..i] then False else StatusOf(cs0, k)
      invariant updated <==> exists k :: k in kinds[..i] && StatusOf(cs0, k) != False
    {
      var changed;
      cs, changed := SetStatus(cs, kinds[i], False, now);
      updated := changed || updated;
      assert kinds[..i + 1] == kinds[..i] + [kinds[i]];
    }
    assert kinds[..|kinds|] == kinds;
  }

  method ClearActionList(cs0: seq<Condition>, now: int) returns (cs: seq<Condition>, updated: bool)
    ensures cs == AllFalse(cs0, ACTIONS, now)
    ensures updated <==> exists k :: IsAction(k) && StatusOf(cs0, k) != False
    ensures forall k :: StatusOf(cs, k) == if IsAction(k) then False else StatusOf(cs0, k)
  {
    cs, updated := SetAllFalse(cs0, ACTIONS, now);
    forall k {
      ActionMembers(k);
    }
  }

  function ClearedStatus(cs: seq<Condition>, stopped: bool, k: ConditionType): ConditionStatus {
    if k == DcValid then True
    else if IsAction(k) then False
    else if k == DcStopped then (if stopped then True else False)
    else if k == ScalingUp && StatusOf(cs, k) == True then False
    else StatusOf(cs, k)
  }

  /** The final settings of the action conditions, and whether any of them was a change. */
  method ClearActions(cs0: seq<Condition>, stopped: bool, now: int) returns (cs: seq<Condition>, updated: bool)
    ensures cs == Cleared(cs0, stopped, now)
    ensures updated <==> !ActionsSettled(cs0, stopped)
    ensures forall k :: StatusOf(cs, k) == ClearedStatus(cs0, stopped, k)
  {
    hide With;
    updated := StatusOf(cs0, ScalingUp) == True;
    var scaled := cs0;
    if updated {
      var changed;
      scaled, changed := SetStatus(cs0, ScalingUp, False, now);
    }
    var rest;
    cs, rest := ClearRest(scaled, stopped, now);
    updated := updated || rest;
  }

  method ClearRest(cs0: seq<Condition>, stopped: bool, now: int) returns (cs: seq<Condition>, updated: bool)
    ensures cs == With(AllFalse(With(cs0, DcStopped, if stopped then True else False, now), ACTIONS, now), DcValid, True, now)
    ensures updated <==> || StatusOf(cs0, DcStopped) != (if stopped then True else False)
                         || StatusOf(cs0, DcValid) != True
                         || exists k :: IsAction(k) && StatusOf(cs0, k) != False
    ensures forall k :: k != ScalingUp ==> StatusOf(cs, k) == ClearedStatus(cs0, stopped, k)
    ensures StatusOf(cs, ScalingUp) == StatusOf(cs0, ScalingUp)
  {
    hide With, StatusOf, AllFalse;
    var want := if stopped then True else False;
    var stop, a := SetStatus(cs0, DcStopped, want, now);
    var cleared, b := ClearActionList(stop, now);
    var c;
    cs, c := SetStatus(cleared, DcValid, True, now);
    updated := a || b || c;
    forall k ensures StatusOf(cs, k) == if k == ScalingUp then StatusOf(cs0, k) else ClearedStatus(cs0, stopped, k) {
      assert StatusOf(stop, k) == if k == DcStopped then want else StatusOf(cs0, k);
      assert StatusOf(cleared, k) == if IsAction(k) then False else StatusOf(stop, k);
      assert StatusOf(cs, k) == if k == DcValid then True else StatusOf(cleared, k);
    }
  }

  method CheckClearActionConditions(rc: Context) returns (r: Result)
    requires rc.Valid()
    modifies rc.dc
    ensures ClearActionsSpec(old(rc.View()), rc.View(), r)
  {
    if StatusOf(rc.dc.conditions, ScalingUp) == True {
      // clean up the key ranges that moved to the new nodes
      var cleaned := rc.Call();
      if !cleaned {
        return Error;
      }
    }
    var cs, updated := ClearActions(rc.dc.conditions, rc.dc.spec.stopped, rc.env.now);
    if !updated {
      return Continue;
    }
    var ok := rc.PatchConditions(cs);
    r := if ok then Requeue else Error;
  }

  method CheckConditionInitializedAndReady(rc: Context) returns (r: Result)
    requires rc.Valid()
    modifies rc.dc
    ensures InitializedSpec(old(rc.View()), rc.View(), r)
  {
    var cs, updated := SetStatus(rc.dc.conditions, DcInitialized, True, rc.env.now);
    if StatusOf(cs, DcStopped) == False {
      var changed;
      cs, changed := SetStatus(cs, DcReady, True, rc.env.now);
      updated := changed || updated;
    }
    if !updated {
      return Continue;
    }
    var ok := rc.PatchConditions(cs);
    r := if ok then Requeue else Error;
  }

  method Finish(rc: Context) returns (r: Result)
    requires rc.Valid()
    modifies rc.dc
    ensures FinishSpec(old(rc.View()), rc.View(), r)
  {
    var ok := rc.SetOperatorProgress(ProgressReady);
    if !ok {
      return Error;
    }
    ok := rc.Call();
    r := if ok then Continue else Error;
  }
}
