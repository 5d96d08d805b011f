/** Draining nodes never takes bootstrapped pods of two racks down at once, and a drain that was
    failed is not carried out. */
module Draining {
  import opened Conditions
  import opened Model
  import opened EmmSpecs

  // ----- What the decision procedure can come to -----

  datatype Action =
    | Idle
    | Cleans                                       // stale failure annotations are taken off
    | FailsDrain(nodes: set<string>, why: string)  // pods on these nodes are annotated
    | RemovesUnready(rack: string)                 // unready pods on tainted nodes are removed
    | Replaces(rack: string)                       // stranded pods are handed over for replacement
    | Evacuates(pod: int)                          // one pod is removed from a node being evacuated
    | TakesDown(node: string)                      // all pods are removed from one node going down

  /** The check is on, and neither a failed drain nor a datacenter still coming up ends it. */
  ghost predicate Entered(w: World) {
    && w.env.pspEnabled && NodesKnown(w) && (forall i :: !Failed(w, i))
    && Condition_(w, DcInitialized) == True
  }

  /** No guard that fails drains acts, with `rack` picked as the down rack, if there is one. */
  ghost predicate PastGuards(w: World, rack: string) {
    && Entered(w) && IsDownRack(w, rack)
    && !(TooFewNodes(w) && Hosts(w, Tainted(w)))
    && !(Condition_(w, DcStopped) == True && Hosts(w, Evacuating(w)))
    && (|DownRacks(w)| <= 1 || !Hosts(w, Tainted(w)))
    && (rack == "" || !Hosts(w, Outside(w, rack)))
  }

  ghost predicate NoneUnready(w: World) {
    forall i :: !UnreadyOn(w, i, Tainted(w))
  }

  ghost predicate Acts(w: World, w': World, r: Result, a: Action) {
    match a
    case Idle => w' == w
    case Cleans => (exists i :: Failed(w, i)) && EditSpec(w, w', StalePods(w), Clean, r)
    case FailsDrain(nodes, why) =>
      (forall i :: !Failed(w, i)) && nodes <= Tainted(w) && EditSpec(w, w', PodsOn(w, nodes), Fail(why), r)
    case RemovesUnready(rack) => PastGuards(w, rack) && EditSpec(w, w', UnreadyPodsOn(w, Tainted(w)), Delete, r)
    case Replaces(rack) => PastGuards(w, rack) && rack != "" && NoneUnready(w) && ReplaceSpec(w, w', r)
    case Evacuates(k) =>
      PastGuards(w, "") && NoneUnready(w) && On(w, k, Evacuating(w)) && EditSpec(w, w', {k}, Delete, r)
    case TakesDown(n) =>
      && PastGuards(w, "") && NoneUnready(w) && !Hosts(w, Evacuating(w))
      && n in GoingDown(w) && Hosts(w, {n}) && EditSpec(w, w', PodsOn(w, {n}), Delete, r)
  }

  lemma CarryOutActs(w: World, w': World, rack: string, r: Result) returns (a: Action)
    requires PastGuards(w, rack) && NoneUnready(w) && CarryOutSpec(w, w', rack, r)
    ensures Acts(w, w', r, a) && (r == Continue ==> a == Idle)
  {
    if w' == w && r == Continue {
      a := Idle;
    } else if rack != "" {
      a := Replaces(rack);
    } else if Hosts(w, Evacuating(w)) {
      var k :| On(w, k, Evacuating(w)) && EditSpec(w, w', {k}, Delete, r);
      a := Evacuates(k);
    } else {
      var n :| n in GoingDown(w) && Hosts(w, {n}) && EditSpec(w, w', PodsOn(w, {n}), Delete, r);
      a := TakesDown(n);
    }
  }

  lemma RackGuardsAct(w: World, w': World, rack: string, r: Result) returns (a: Action)
    requires Entered(w) && IsDownRack(w, rack) && (|DownRacks(w)| <= 1 || !Hosts(w, Tainted(w)))
    requires !(TooFewNodes(w) && Hosts(w, Tainted(w))) && !(Condition_(w, DcStopped) == True && Hosts(w, Evacuating(w)))
    requires RackGuardsSpec(w, w', rack, r)
    ensures Acts(w, w', r, a) && (r == Continue ==> a == Idle)
  {
    hide TooFewNodes, NodesKnown, IsDownRack, CarryOutSpec;
    if rack != "" && Hosts(w, Outside(w, rack)) {
      a := FailsDrain(Outside(w, rack), TOO_MANY_EXISTING_FAILURES);
    } else if exists i :: UnreadyOn(w, i, Tainted(w)) {
      a := RemovesUnready(rack);
    } else {
      a := CarryOutActs(w, w', rack, r);
    }
  }

  lemma DownGuardsAct(w: World, w': World, r: Result) returns (a: Action)
    requires Entered(w) && DownGuardsSpec(w, w', r)
    requires !(TooFewNodes(w) && Hosts(w, Tainted(w))) && !(Condition_(w, DcStopped) == True && Hosts(w, Evacuating(w)))
    ensures Acts(w, w', r, a) && (r == Continue ==> a == Idle)
  {
    hide TooFewNodes, NodesKnown, RackGuardsSpec;
    if |DownRacks(w)| > 1 && Hosts(w, Tainted(w)) {
      a := FailsDrain(Tainted(w), TOO_MANY_EXISTING_FAILURES);
    } else {
      var rack :| IsDownRack(w, rack) && RackGuardsSpec(w, w', rack, r);
      a := RackGuardsAct(w, w', rack, r);
    }
  }

  lemma FailGuardsAct(w: World, w': World, r: Result) returns (a: Action)
    requires Entered(w) && FailGuardsSpec(w, w', r)
    ensures Acts(w, w', r, a) && (r == Continue ==> a == Idle)
  {
    hide TooFewNodes, NodesKnown, DownGuardsSpec;
    if TooFewNodes(w) && Hosts(w, Tainted(w)) {
      a := FailsDrain(Tainted(w), NOT_ENOUGH_RESOURCES);
    } else if Condition_(w, DcStopped) == True && Hosts(w, Evacuating(w)) {
      a := FailsDrain(Evacuating(w), GENERIC_FAILURE);
    } else {
      a := DownGuardsAct(w, w', r);
    }
  }

  /** Whatever the check does is one of these actions, each with its guards. */
  lemma EmmActs(w: World, w': World, r: Result) returns (a: Action)
    requires EmmSpec(w, w', r)
    ensures Acts(w, w', r, a) && (r == Continue ==> a == Idle)
    ensures (exists i :: Failed(w, i)) ==> a == Idle || a == Cleans
  {
    hide NodesKnown, FailGuardsSpec;
    if w' == w {
      a := Idle;
    } else if exists i :: Stale(w, i) {
      a := Cleans;
    } else {
      a := FailGuardsAct(w, w', r);
    }
  }

  // ----- Availability -----

  /** None of these nodes hosts pods of two racks. */
  ghost predicate OneRackPerNode(w: World, nodes: set<string>) {
    forall i, j :: On(w, i, nodes) && On(w, j, nodes) && w.pods[i].info.node == w.pods[j].info.node ==>
      w.pods[i].info.rack == w.pods[j].info.rack
  }

  /** Every pod that is down has a rack label. */
  ghost predicate DownLabelled(w: World) {
    forall i :: Down(w, i) ==> w.pods[i].info.rack != ""
  }

  /** Nothing was removed earlier in the pass. */
  ghost predicate NoneRemoved(w: World) {
    forall i :: InDc(w, i) ==> !w.pods[i].removed
  }

  ghost predicate NewlyRemoved(w: World, w': World, i: int) {
    InDc(w, i) && |w'.pods| == |w.pods| && w'.pods[i].removed && !w.pods[i].removed
  }

  /** A pod that counts as down: it is bootstrapped and not ready, or it is being removed. */
  ghost predicate Affected(w: World, w': World, i: int) {
    Down(w, i) || NewlyRemoved(w, w', i)
  }

  ghost predicate AffectsOneRack(w: World, w': World) {
    forall i, j :: Affected(w, w', i) && Affected(w, w', j) ==> w.pods[i].info.rack == w.pods[j].info.rack
  }

  /** As before, but of the removed pods counting only those that were bootstrapped. */
  ghost predicate BootstrappedInOneRack(w: World, w': World) {
    forall i, j :: Affected(w, w', i) && Bootstrapped(w.pods[i], w.dc.hostIds)
                   && Affected(w, w', j) && Bootstrapped(w.pods[j], w.dc.hostIds) ==>
      w.pods[i].info.rack == w.pods[j].info.rack
  }

  /** The pods on tainted nodes that are not ready lie in one rack. */
  ghost predicate UnreadyInOneRack(w: World) {
    forall i, j :: UnreadyOn(w, i, Tainted(w)) && UnreadyOn(w, j, Tainted(w)) ==>
      w.pods[i].info.rack == w.pods[j].info.rack
  }

  lemma DownRackHolds(w: World, i: int)
    requires Down(w, i)
    ensures w.pods[i].info.rack in DownRacks(w)
  {
  }

  lemma OnlyRemovesSelected(w: World, w': World, sel: set<int>, r: Result, i: int)
    requires EditSpec(w, w', sel, Delete, r) && NewlyRemoved(w, w', i)
    ensures i in sel
  {
  }

  lemma NothingRemoved(w: World, w': World, r: Result, a: Action, i: int)
    requires Acts(w, w', r, a) && (a.Idle? || a.Cleans? || a.FailsDrain?)
    ensures !NewlyRemoved(w, w', i)
  {
  }

  /** Past the guards every pod on a tainted node is in the down rack, if there is one. */
  lemma TaintedInDownRack(w: World, rack: string, i: int)
    requires PastGuards(w, rack) && rack != "" && OneRackPerNode(w, Tainted(w)) && On(w, i, Tainted(w))
    ensures w.pods[i].info.rack == rack
  {
    var n := w.pods[i].info.node;
    assert !On(w, i, Outside(w, rack));
    var j :| On(w, j, {n}) && w.pods[j].info.rack == rack;
  }

  /** Down pods lie in one rack. */
  ghost predicate DownInOneRack(w: World) {
    forall i, j :: Down(w, i) && Down(w, j) ==> w.pods[i].info.rack == w.pods[j].info.rack
  }

  lemma DownInPicked(w: World, rack: string, i: int)
    requires IsDownRack(w, rack) && DownInOneRack(w) && Down(w, i)
    ensures w.pods[i].info.rack == rack
  {
    DownRackHolds(w, i);
    var j :| 0 <= j < |w.pods| && Down(w, j) && w.pods[j].info.rack == rack;
  }

  lemma NoneDown(w: World, rack: string, i: int)
    requires DownLabelled(w) && IsDownRack(w, rack) && rack == ""
    ensures !Down(w, i)
  {
    assert rack !in DownRacks(w);
    if Down(w, i) {
      DownRackHolds(w, i);
    }
  }

  lemma UnreadyRemovalSafe(w: World, w': World, r: Result, rack: string, i: int)
    requires OneRackPerNode(w, Tainted(w)) && DownInOneRack(w) && rack != ""
    requires Acts(w, w', r, RemovesUnready(rack)) && Affected(w, w', i)
    ensures w.pods[i].info.rack == rack
  {
    if Down(w, i) {
      DownInPicked(w, rack, i);
    } else {
      OnlyRemovesSelected(w, w', UnreadyPodsOn(w, Tainted(w)), r, i);
      TaintedInDownRack(w, rack, i);
    }
  }

  lemma NeverBootstrappedRemoved(w: World, w': World, r: Result, i: int)
    requires DownLabelled(w) && Acts(w, w', r, RemovesUnready("")) && Affected(w, w', i)
    ensures UnreadyOn(w, i, Tainted(w)) && !Bootstrapped(w.pods[i], w.dc.hostIds)
  {
    NoneDown(w, "", i);
    OnlyRemovesSelected(w, w', UnreadyPodsOn(w, Tainted(w)), r, i);
  }

  lemma ReplacementSafe(w: World, w': World, r: Result, rack: string, i: int)
    requires DownInOneRack(w) && Acts(w, w', r, Replaces(rack)) && Affected(w, w', i)
    ensures w.pods[i].info.rack == rack
  {
    if !Down(w, i) {
      OnlyRemovesSelected(w, w'.(dc := w.dc), StrandedPods(w), r, i);
    }
    DownInPicked(w, rack, i);
  }

  lemma EvacuationSafe(w: World, w': World, r: Result, k: int, i: int)
    requires DownLabelled(w) && Acts(w, w', r, Evacuates(k)) && Affected(w, w', i)
    ensures i == k
  {
    NoneDown(w, "", i);
    OnlyRemovesSelected(w, w', {k}, r, i);
  }

  lemma DowntimeSafe(w: World, w': World, r: Result, n: string, i: int)
    requires DownLabelled(w) && Acts(w, w', r, TakesDown(n)) && Affected(w, w', i)
    ensures w.pods[i].info.node == n
  {
    NoneDown(w, "", i);
    OnlyRemovesSelected(w, w', PodsOn(w, {n}), r, i);
  }

  lemma SafeAction(w: World, w': World, r: Result, a: Action, i: int, j: int)
    requires OneRackPerNode(w, Tainted(w)) && DownLabelled(w) && DownInOneRack(w) && Acts(w, w', r, a) && a != RemovesUnready("")
    requires Affected(w, w', i) && Affected(w, w', j)
    ensures w.pods[i].info.rack == w.pods[j].info.rack
  {
    match a
    case RemovesUnready(rack) =>
      UnreadyRemovalSafe(w, w', r, rack, i);
      UnreadyRemovalSafe(w, w', r, rack, j);
    case Replaces(rack) =>
      ReplacementSafe(w, w', r, rack, i);
      ReplacementSafe(w, w', r, rack, j);
    case Evacuates(k) =>
      EvacuationSafe(w, w', r, k, i);
      EvacuationSafe(w, w', r, k, j);
    case TakesDown(n) =>
      DowntimeSafe(w, w', r, n, i);
      DowntimeSafe(w, w', r, n, j);
    case _ =>
      NothingRemoved(w, w', r, a, i);
      NothingRemoved(w, w', r, a, j);
  }

  /** Counting also removed pods that were never bootstrapped, it is still one rack, provided a
      rack is down already or the unready pods on tainted nodes lie in one rack. */
  lemma DrainAffectsOneRack(w: World, w': World, r: Result)
    requires OneRackPerNode(w, Tainted(w)) && DownLabelled(w) && DownInOneRack(w) && EmmSpec(w, w', r)
    requires DownRacks(w) != {} || UnreadyInOneRack(w)
    ensures AffectsOneRack(w, w')
  {
    var a := EmmActs(w, w', r);
    forall i, j | Affected(w, w', i) && Affected(w, w', j) ensures w.pods[i].info.rack == w.pods[j].info.rack {
      if a == RemovesUnready("") {
        NeverBootstrappedRemoved(w, w', r, i);
        NeverBootstrappedRemoved(w, w', r, j);
        assert "" !in DownRacks(w);
      } else {
        SafeAction(w, w', r, a, i, j);
      }
    }
  }

  /** And only then: removing unready pods of several racks at once is what the check does when
      no bootstrapped pod is down. */
  lemma UnreadyRemovalAffectsSeveral(w: World, w': World, rack: string)
    requires OneRackPerNode(w, Tainted(w)) && DownLabelled(w) && DownInOneRack(w)
    requires NoneRemoved(w)
    requires Acts(w, w', Requeue, RemovesUnready(rack))
    ensures AffectsOneRack(w, w') <==> DownRacks(w) != {} || UnreadyInOneRack(w)
  {
    hide TaintedWith, TooFewNodes, NodesKnown, Hosts;
    if DownRacks(w) == {} {
      forall i ensures Affected(w, w', i) <==> UnreadyOn(w, i, Tainted(w)) {
        if UnreadyOn(w, i, Tainted(w)) {
          assert i in UnreadyPodsOn(w, Tainted(w));
        }
        if Affected(w, w', i) {
          NeverBootstrappedRemoved(w, w', Requeue, i);
        }
      }
    } else {
      forall i, j | Affected(w, w', i) && Affected(w, w', j) ensures w.pods[i].info.rack == w.pods[j].info.rack {
        SafeAction(w, w', Requeue, RemovesUnready(rack), i, j);
      }
    }
  }

  lemma TaintedHosts(w: World, i: int)
    requires On(w, i, Evacuating(w)) || On(w, i, GoingDown(w))
    ensures Hosts(w, Tainted(w))
  {
    assert On(w, i, Tainted(w));
  }

  /** With bootstrapped pods down in several racks, no ready pod is removed. */
  lemma DegradedRemovesNoReadyPod(w: World, w': World, r: Result, i: int)
    requires |DownRacks(w)| > 1 && EmmSpec(w, w', r) && NewlyRemoved(w, w', i)
    ensures !w.pods[i].info.ready
  {
    var a := EmmActs(w, w', r);
    match a
    case RemovesUnready(rack) => OnlyRemovesSelected(w, w', UnreadyPodsOn(w, Tainted(w)), r, i);
    case Replaces(rack) => OnlyRemovesSelected(w, w'.(dc := w.dc), StrandedPods(w), r, i);
    case Evacuates(k) => TaintedHosts(w, k);
    case TakesDown(n) =>
      OnlyRemovesSelected(w, w', PodsOn(w, {n}), r, i);
      TaintedHosts(w, i);
    case _ => NothingRemoved(w, w', r, a, i);
  }

  // ----- The one-rack rule, exactly -----

  /** The down pods, and those of `sel` that are bootstrapped, lie in one rack. */
  ghost predicate InOneRackWith(w: World, sel: set<int>) {
    forall i, j :: Counted(w, sel, i) && Counted(w, sel, j) ==> w.pods[i].info.rack == w.pods[j].info.rack
  }

  ghost predicate Counted(w: World, sel: set<int>, i: int) {
    Down(w, i) || (InDc(w, i) && i in sel && Bootstrapped(w.pods[i], w.dc.hostIds))
  }

  /** Removing `sel`, or when a call fails only some of it, is safe if `sel` is in the down rack. */
  lemma RemovalSafe(w: World, w': World, sel: set<int>, r: Result)
    requires EditSpec(w, w', sel, Delete, r) && InOneRackWith(w, sel)
    ensures BootstrappedInOneRack(w, w')
  {
    forall i | Affected(w, w', i) && Bootstrapped(w.pods[i], w.dc.hostIds) ensures Counted(w, sel, i) {
      if !Down(w, i) {
        OnlyRemovesSelected(w, w', sel, r, i);
      }
    }
  }

  /** And removing all of it is safe only then. */
  lemma RemovalExact(w: World, w': World, sel: set<int>)
    requires EditSpec(w, w', sel, Delete, Requeue) && NoneRemoved(w)
    ensures BootstrappedInOneRack(w, w') <==> InOneRackWith(w, sel)
  {
    forall i ensures Counted(w, sel, i) <==> Affected(w, w', i) && Bootstrapped(w.pods[i], w.dc.hostIds) {
      if !Down(w, i) && NewlyRemoved(w, w', i) {
        OnlyRemovesSelected(w, w', sel, Requeue, i);
      }
    }
  }

  /** Evacuating pod `k` keeps the rule exactly when `k` is in the down rack, if there is one. */
  lemma EvacuationExact(w: World, w': World, k: int)
    requires Acts(w, w', Requeue, Evacuates(k)) && NoneRemoved(w)
    ensures BootstrappedInOneRack(w, w') <==> InOneRackWith(w, {k})
  {
    RemovalExact(w, w', {k});
  }

  /** Taking node `n` down keeps the rule exactly when its pods and the down pods share a rack. */
  lemma DowntimeExact(w: World, w': World, n: string)
    requires Acts(w, w', Requeue, TakesDown(n)) && NoneRemoved(w)
    ensures BootstrappedInOneRack(w, w') <==> InOneRackWith(w, PodsOn(w, {n}))
  {
    RemovalExact(w, w', PodsOn(w, {n}));
  }

  /** Whichever pods may be removed next, they share a rack with the down pods. */
  ghost predicate VictimsInOneRack(w: World) {
    if Hosts(w, Evacuating(w)) then forall k :: On(w, k, Evacuating(w)) ==> InOneRackWith(w, {k})
    else forall n :: n in GoingDown(w) && Hosts(w, {n}) ==> InOneRackWith(w, PodsOn(w, {n}))
  }

  /** The check may go on to remove ready pods: it sees no rack down, and no unready pod is left on
      a tainted node. */
  ghost predicate MayRemoveReady(w: World) {
    PastGuards(w, "") && NoneUnready(w)
  }

  /** Removing pods that are down, or never bootstrapped, changes nothing. */
  lemma DownStaysInOneRack(w: World, w': World, sel: set<int>, r: Result)
    requires DownInOneRack(w) && EditSpec(w, w', sel, Delete, r)
    requires forall i :: InDc(w, i) && i in sel && Bootstrapped(w.pods[i], w.dc.hostIds) ==> Down(w, i)
    ensures BootstrappedInOneRack(w, w')
  {
    RemovalSafe(w, w', sel, r);
  }

  lemma VictimsSafe(w: World, w': World, r: Result, a: Action)
    requires DownInOneRack(w) && Acts(w, w', r, a) && (MayRemoveReady(w) ==> VictimsInOneRack(w))
    ensures BootstrappedInOneRack(w, w')
  {
    hide PastGuards, NoneUnready;
    match a
    case RemovesUnready(rack) => DownStaysInOneRack(w, w', UnreadyPodsOn(w, Tainted(w)), r);
    case Replaces(rack) => DownStaysInOneRack(w, w'.(dc := w.dc), StrandedPods(w), r);
    case Evacuates(k) => RemovalSafe(w, w', {k}, r);
    case TakesDown(n) => RemovalSafe(w, w', PodsOn(w, {n}), r);
    case _ =>
      forall i ensures !NewlyRemoved(w, w', i) {
        NothingRemoved(w, w', r, a, i);
      }
  }

  function Without(w: World, sel: set<int>): World {
    w.(pods := seq(|w.pods|, i requires 0 <= i < |w.pods| => if i in sel then w.pods[i].(removed := true) else w.pods[i]))
  }

  /** Past the guards, whatever the last step may do the check may do. */
  lemma CarriedOut(w: World, w': World)
    requires MayRemoveReady(w) && CarryOutSpec(w, w', "", Requeue)
    ensures EmmSpec(w, w', Requeue)
  {
    hide CarryOutSpec, TooFewNodes, NodesKnown, Hosts;
    assert RackGuardsSpec(w, w', "", Requeue);
    assert DownGuardsSpec(w, w', Requeue) by {
      hide RackGuardsSpec;
    }
    assert FailGuardsSpec(w, w', Requeue) by {
      hide DownGuardsSpec;
    }
    assert forall i :: !Stale(w, i);
  }

  /** With bootstrapped pods down in at most one rack, the check keeps it so, whatever it does and
      wherever a call fails, if and only if the pods it may remove next share a rack with them. */
  lemma DrainRuleExact(w: World)
    requires DownInOneRack(w) && NoneRemoved(w)
    ensures (forall w', r :: EmmSpec(w, w', r) ==> BootstrappedInOneRack(w, w'))
            <==> (MayRemoveReady(w) ==> VictimsInOneRack(w))
  {
    hide EmmSpec, MayRemoveReady, InOneRackWith, BootstrappedInOneRack;
    if MayRemoveReady(w) ==> VictimsInOneRack(w) {
      forall w', r | EmmSpec(w, w', r) ensures BootstrappedInOneRack(w, w') {
        var a := EmmActs(w, w', r);
        VictimsSafe(w, w', r, a);
      }
    } else if Hosts(w, Evacuating(w)) {
      var k :| On(w, k, Evacuating(w)) && !InOneRackWith(w, {k});
      EvacuationBreaks(w, k);
    } else {
      var n :| n in GoingDown(w) && Hosts(w, {n}) && !InOneRackWith(w, PodsOn(w, {n}));
      DowntimeBreaks(w, n);
    }
  }

  lemma EvacuationBreaks(w: World, k: int)
    requires MayRemoveReady(w) && NoneRemoved(w) && On(w, k, Evacuating(w)) && !InOneRackWith(w, {k})
    ensures var w' := Without(w, {k}); EmmSpec(w, w', Requeue) && !BootstrappedInOneRack(w, w')
  {
    hide EmmSpec, MayRemoveReady, InOneRackWith, BootstrappedInOneRack;
    var w' := Without(w, {k});
    assert EditSpec(w, w', {k}, Delete, Requeue);
    CarriedOut(w, w');
    RemovalExact(w, w', {k});
  }

  lemma DowntimeBreaks(w: World, n: string)
    requires MayRemoveReady(w) && NoneRemoved(w) && !Hosts(w, Evacuating(w))
    requires n in GoingDown(w) && Hosts(w, {n}) && !InOneRackWith(w, PodsOn(w, {n}))
    ensures var w' := Without(w, PodsOn(w, {n})); EmmSpec(w, w', Requeue) && !BootstrappedInOneRack(w, w')
  {
    hide EmmSpec, MayRemoveReady, InOneRackWith, BootstrappedInOneRack;
    var w' := Without(w, PodsOn(w, {n}));
    assert EditSpec(w, w', PodsOn(w, {n}), Delete, Requeue);
    var i :| On(w, i, {n});
    assert On(w, i, GoingDown(w));
    CarriedOut(w, w');
    RemovalExact(w, w', PodsOn(w, {n}));
  }

  lemma NodeInOneRack(w: World, n: string)
    requires OneRackPerNode(w, GoingDown(w)) && (forall i :: !Down(w, i)) && n in GoingDown(w)
    ensures InOneRackWith(w, PodsOn(w, {n}))
  {
    forall i, j | On(w, i, {n}) && On(w, j, {n}) ensures w.pods[i].info.rack == w.pods[j].info.rack {
      assert On(w, i, GoingDown(w)) && On(w, j, GoingDown(w));
    }
  }

  lemma LabelledVictims(w: World)
    requires OneRackPerNode(w, GoingDown(w)) && DownLabelled(w) && IsDownRack(w, "")
    ensures VictimsInOneRack(w)
  {
    forall i ensures !Down(w, i) {
      NoneDown(w, "", i);
    }
    forall n | n in GoingDown(w) ensures InOneRackWith(w, PodsOn(w, {n})) {
      NodeInOneRack(w, n);
    }
  }

  /** In particular it does if no node going down hosts pods of two racks and every down pod has
      its rack label, as the default anti-affinity and the StatefulSets' labels give. */
  lemma DrainKeepsRacksUp(w: World, w': World, r: Result)
    requires OneRackPerNode(w, GoingDown(w)) && DownLabelled(w) && DownInOneRack(w) && EmmSpec(w, w', r)
    ensures BootstrappedInOneRack(w, w')
  {
    hide EmmSpec, BootstrappedInOneRack, VictimsInOneRack, OneRackPerNode, DownLabelled, Acts;
    var a := EmmActs(w, w', r);
    if MayRemoveReady(w) {
      LabelledVictims(w);
    }
    VictimsSafe(w, w', r, a);
  }

  // ----- Failed drains -----

  /** While any pod carries a failure annotation the check removes nothing and ends the pass, and
      the annotation stays for as long as the pod's node is tainted. */
  lemma FailedDrainWaits(w: World, w': World, r: Result, i: int)
    requires w.env.pspEnabled && Failed(w, i) && EmmSpec(w, w', r)
    ensures r != Continue && |w'.pods| == |w.pods| && (forall j :: !NewlyRemoved(w, w', j))
    ensures w.pods[i].info.node in Tainted(w) ==> w'.pods[i].failure == w.pods[i].failure
    ensures r == Requeue && w.pods[i].info.node !in Tainted(w) ==> w'.pods[i].failure.None?
  {
    if w' == w {
      if exists j :: Stale(w, j) {
        assert Stale(w, i) ==> i in StalePods(w);
      }
    } else {
      assert exists j :: Stale(w, j);
      assert Stale(w, i) <==> i in StalePods(w);
    }
  }

  // ----- Clusters in which the rule breaks -----

  /** Two pods, one of them on node "n", which is going down; two more nodes could take them. */
  function Example(p: PodView, q: PodView): World {
    var down := KubeNode([Taint(TAINT_KEY, PLANNED_DOWNTIME, NO_SCHEDULE)], true);
    var spare := KubeNode([], true);
    World(Env(true, true, true, true, 0, [], map["n" := down, "s" := spare, "t" := spare]),
          [p, q], [],
          DcView(Spec("c", "dc", ["r"], 2, false, 0, false, [0]), [], false,
                 [Condition(DcInitialized, True, 0)], map[], [], 0, NoProgress))
  }

  predicate ExamplePods(p: PodView, q: PodView) {
    && p.info.dc == q.info.dc == "dc" && p.info.hasPvc && q.info.hasPvc && p.failure.None? && q.failure.None?
    && p.info.node == p.info.pvcNode == "n" && q.info.node == q.info.pvcNode && (q.info.node == "n" || q.info.node == "s")
    && p.info.ready && (q.info.ready || q.info.node == "s")
    && p.state == q.state == Started && !p.removed && !q.removed
  }

  lemma ExampleTaints(p: PodView, q: PodView)
    requires ExamplePods(p, q)
    ensures var w := Example(p, q); NodesKnown(w) && GoingDown(w) == {"n"} && Evacuating(w) == {} && Tainted(w) == {"n"}
  {
    var w := Example(p, q);
    assert InDc(w, 0) && InDc(w, 1);
    assert CaresAbout(w, "n");
    var taint := Taint(TAINT_KEY, PLANNED_DOWNTIME, NO_SCHEDULE);
    assert w.env.nodes["n"].taints[0] == taint != Taint(TAINT_KEY, EVACUATE_ALL_DATA, NO_SCHEDULE);
    assert HasTaint(w.env.nodes["n"], PLANNED_DOWNTIME) && !HasTaint(w.env.nodes["n"], EVACUATE_ALL_DATA);
    assert TaintedWith(w, PLANNED_DOWNTIME) == {"n"};
    assert TaintedWith(w, EVACUATE_ALL_DATA) == {};
  }

  lemma SubsetSize(a: set<string>, b: set<string>)
    requires a <= b
    ensures |a| <= |b|
  {
    assert b == a + (b - a);
  }

  lemma ExampleSizes(p: PodView, q: PodView)
    requires ExamplePods(p, q)
    ensures !TooFewNodes(Example(p, q))
  {
    var w := Example(p, q);
    ExampleTaints(p, q);
    assert InDc(w, 0) && InDc(w, 1);
    assert PodNames(w) == {p.info.name, q.info.name};
    var free := Agents(w.env) - {"n"};
    assert "n"[0] != "s"[0] && "n"[0] != "t"[0] && "s"[0] != "t"[0];
    assert "s" in w.env.nodes && "t" in w.env.nodes;
    assert "s" in free && "t" in free;
    SubsetSize({"s", "t"}, free);
  }

  lemma ExampleMayRemove(p: PodView, q: PodView)
    requires ExamplePods(p, q) && IsDownRack(Example(p, q), "") && |DownRacks(Example(p, q))| <= 1
    ensures var w := Example(p, q); MayRemoveReady(w) && !Hosts(w, Evacuating(w)) && "n" in GoingDown(w) && Hosts(w, {"n"})
  {
    hide TooFewNodes, NodesKnown, Tainted, Evacuating, GoingDown;
    var w := Example(p, q);
    ExampleTaints(p, q);
    ExampleSizes(p, q);
    assert "n"[0] != "s"[0];
    assert On(w, 0, {"n"});
  }

  /** Pods of two racks on one node go down together. */
  lemma TwoRacksExample(p: PodView, q: PodView, w: World)
    requires ExamplePods(p, q) && q.info.node == "n" && p.info.rack == "a" && q.info.rack == "b" && w == Example(p, q)
    ensures DownLabelled(w) && DownInOneRack(w) && exists w' :: EmmSpec(w, w', Requeue) && !BootstrappedInOneRack(w, w')
  {
    hide EmmSpec, BootstrappedInOneRack, MayRemoveReady;
    assert forall i :: !Down(w, i);
    assert DownRacks(w) == {};
    ExampleMayRemove(p, q);
    assert "a"[0] != "b"[0];
    assert Counted(w, PodsOn(w, {"n"}), 0) && Counted(w, PodsOn(w, {"n"}), 1);
    DowntimeBreaks(w, "n");
  }

  /** A down pod without a rack label is not seen, and a pod of another rack goes down too. */
  lemma UnlabelledExample(p: PodView, q: PodView, w: World)
    requires ExamplePods(p, q) && q.info.node == "s" && p.info.rack == "a" && q.info.rack == "" && !q.info.ready && w == Example(p, q)
    ensures OneRackPerNode(w, Tainted(w)) && DownInOneRack(w)
    ensures exists w' :: EmmSpec(w, w', Requeue) && !BootstrappedInOneRack(w, w')
  {
    hide EmmSpec, BootstrappedInOneRack, MayRemoveReady;
    assert "n"[0] != "s"[0];
    assert Down(w, 1) && !Down(w, 0);
    assert DownRacks(w) == {""};
    ExampleMayRemove(p, q);
    ExampleTaints(p, q);
    assert Counted(w, PodsOn(w, {"n"}), 0) && Counted(w, PodsOn(w, {"n"}), 1);
    DowntimeBreaks(w, "n");
  }
}
