/** What the drain check looks at, and exactly when it hands over. */
module DrainHandover {
  import opened Conditions
  import opened Model
  import opened EmmSpecs
  import opened Draining

  /** The worlds differ only in what the check does not look at: which pods are on their way out,
      and the status but for host IDs and two conditions. */
  ghost predicate SameToDrains(w: World, v: World) {
    && v.env == w.env && v.dc.spec == w.dc.spec && v.dc.hostIds == w.dc.hostIds && |v.pods| == |w.pods|
    && Condition_(v, DcInitialized) == Condition_(w, DcInitialized) && Condition_(v, DcStopped) == Condition_(w, DcStopped)
    && forall i :: 0 <= i < |w.pods| ==>
         v.pods[i] == w.pods[i].(removed := v.pods[i].removed, info := w.pods[i].info.(terminating := v.pods[i].info.terminating))
  }

  lemma SameNodes(w: World, v: World)
    requires SameToDrains(w, v)
    ensures GoingDown(v) == GoingDown(w) && Evacuating(v) == Evacuating(w) && Tainted(v) == Tainted(w)
    ensures NodesKnown(w) ==> NodesKnown(v)
  {
    assert forall i :: InDc(v, i) <==> InDc(w, i);
    forall n ensures CaresAbout(v, n) <==> CaresAbout(w, n) {
      if i :| InDc(w, i) && (w.pods[i].info.node == n || w.pods[i].info.pvcNode == n) {
        assert InDc(v, i);
      }
      if i :| InDc(v, i) && (v.pods[i].info.node == n || v.pods[i].info.pvcNode == n) {
        assert InDc(w, i);
      }
    }
  }

  lemma SameCounts(w: World, v: World)
    requires SameToDrains(w, v)
    ensures DownRacks(v) == DownRacks(w) && PodNames(v) == PodNames(w)
    ensures forall i :: Failed(v, i) <==> Failed(w, i)
    ensures forall i, nodes :: On(v, i, nodes) <==> On(w, i, nodes)
    ensures forall i, nodes :: UnreadyOn(v, i, nodes) <==> UnreadyOn(w, i, nodes)
  {
    assert forall i :: InDc(v, i) <==> InDc(w, i);
    assert forall i :: Down(v, i) <==> Down(w, i);
  }

  lemma SameHosts(w: World, v: World, nodes: set<string>)
    requires SameToDrains(w, v)
    ensures Hosts(v, nodes) <==> Hosts(w, nodes)
  {
    SameCounts(w, v);
  }

  lemma SameOutside(w: World, v: World, rack: string)
    requires SameToDrains(w, v)
    ensures Outside(v, rack) == Outside(w, rack)
  {
    hide TaintedWith;
    SameNodes(w, v);
    SameCounts(w, v);
    forall n ensures n in Outside(v, rack) <==> n in Outside(w, rack) {
      assert forall i :: On(w, i, {n}) ==> v.pods[i].info.rack == w.pods[i].info.rack;
    }
  }

  lemma SameGuards(w: World, v: World, rack: string)
    requires SameToDrains(w, v) && PastGuards(w, rack)
    ensures PastGuards(v, rack)
  {
    hide NodesKnown, TaintedWith, Hosts, Outside;
    SameNodes(w, v);
    SameCounts(w, v);
    SameOutside(w, v, rack);
    SameHosts(w, v, Tainted(w));
    SameHosts(w, v, Evacuating(w));
    SameHosts(w, v, Outside(w, rack));
  }

  lemma MayStillRemove(w: World, v: World)
    requires SameToDrains(w, v) && MayRemoveReady(w)
    ensures MayRemoveReady(v)
  {
    hide PastGuards, TaintedWith;
    SameGuards(w, v, "");
    SameNodes(w, v);
    SameCounts(w, v);
  }

  // ----- Handing over -----

  /** With `rack` picked as the down rack, there is nothing the check would do. */
  ghost predicate NothingToDrain(w: World, rack: string) {
    && PastGuards(w, rack) && NoneUnready(w)
    && if rack != "" then forall i :: !Stranded(w, i)
       else !Hosts(w, Evacuating(w)) && (!Hosts(w, GoingDown(w)) || Fails(w))
  }

  ghost predicate HandsOver(w: World) {
    || !w.env.pspEnabled
    || (&& NodesKnown(w) && (forall i :: !Failed(w, i))
        && (Condition_(w, DcInitialized) != True || exists rack :: NothingToDrain(w, rack)))
  }

  lemma RackHandedOver(w: World, w': World, rack: string)
    requires Entered(w) && IsDownRack(w, rack) && (|DownRacks(w)| <= 1 || !Hosts(w, Tainted(w)))
    requires !(TooFewNodes(w) && Hosts(w, Tainted(w))) && !(Condition_(w, DcStopped) == True && Hosts(w, Evacuating(w)))
    requires RackGuardsSpec(w, w', rack, Continue)
    ensures w' == w && NothingToDrain(w, rack)
  {
    hide TooFewNodes, NodesKnown, IsDownRack, TaintedWith, Hosts;
    assert !(rack != "" && Hosts(w, Outside(w, rack)));
    assert NoneUnready(w);
  }

  lemma DownHandedOver(w: World, w': World)
    requires Entered(w) && DownGuardsSpec(w, w', Continue)
    requires !(TooFewNodes(w) && Hosts(w, Tainted(w))) && !(Condition_(w, DcStopped) == True && Hosts(w, Evacuating(w)))
    ensures w' == w && exists rack :: NothingToDrain(w, rack)
  {
    hide TooFewNodes, NodesKnown, TaintedWith, Hosts, RackGuardsSpec, NothingToDrain;
    var rack :| IsDownRack(w, rack) && RackGuardsSpec(w, w', rack, Continue);
    RackHandedOver(w, w', rack);
  }

  lemma HandedOver(w: World, w': World)
    requires EmmSpec(w, w', Continue)
    ensures w' == w && HandsOver(w)
  {
    hide TooFewNodes, NodesKnown, TaintedWith, Hosts, DownGuardsSpec, NothingToDrain;
    if w.env.pspEnabled && Condition_(w, DcInitialized) == True {
      assert forall i :: !Failed(w, i);
      DownHandedOver(w, w');
    }
  }

  lemma RackHandsOver(w: World, rack: string)
    requires NothingToDrain(w, rack)
    ensures DownGuardsSpec(w, w, Continue)
  {
    hide TooFewNodes, NodesKnown, TaintedWith, Hosts;
    assert RackGuardsSpec(w, w, rack, Continue);
  }

  /** The check hands over, leaving the world alone, exactly if it is off, the datacenter is still
      coming up, or no guard acts and there is nothing to drain. */
  lemma HandsOverExact(w: World, w': World)
    ensures EmmSpec(w, w', Continue) <==> w' == w && HandsOver(w)
  {
    hide TooFewNodes, NodesKnown, TaintedWith, Hosts, DownGuardsSpec, IsDownRack, Outside;
    if EmmSpec(w, w', Continue) {
      HandedOver(w, w');
    }
    if w.env.pspEnabled && HandsOver(w) && w' == w {
      assert forall i :: !Stale(w, i);
      if Condition_(w, DcInitialized) == True {
        var rack :| NothingToDrain(w, rack);
        RackHandsOver(w, rack);
      }
    }
  }

  lemma SameStranded(w: World, v: World, i: int)
    requires SameToDrains(w, v) && Stranded(v, i)
    ensures Stranded(w, i)
  {
    SameNodes(w, v);
  }

  lemma SameNothingToDrain(w: World, v: World, rack: string)
    requires SameToDrains(w, v) && NothingToDrain(w, rack)
    ensures NothingToDrain(v, rack)
  {
    hide PastGuards, TaintedWith, Hosts, Stranded;
    SameGuards(w, v, rack);
    SameNodes(w, v);
    SameCounts(w, v);
    SameHosts(w, v, Evacuating(w));
    SameHosts(w, v, GoingDown(w));
    forall i | Stranded(v, i) ensures Stranded(w, i) {
      SameStranded(w, v, i);
    }
  }

  lemma SameHandsOver(w: World, v: World)
    requires SameToDrains(w, v) && HandsOver(w)
    ensures HandsOver(v)
  {
    hide NodesKnown, NothingToDrain;
    SameNodes(w, v);
    SameCounts(w, v);
    if rack :| NothingToDrain(w, rack) {
      SameNothingToDrain(w, v, rack);
    }
  }
}
