/** The drain check itself: ordered guards that annotate pods to fail a drain, or remove pods to
    carry it out. Sets of node names are visited in no particular order. */
module Emm {
  import opened Conditions
  import opened Model
  import opened EmmSpecs
  import opened Cluster

  // ----- Queries -----

  /** The names of the nodes that carry the drain taint with this value. */
  method TaintedNodes(rc: Context, value: string) returns (names: set<string>, ok: bool)
    requires rc.Valid()
    ensures ok ==> names == TaintedWith(rc.View(), value) && NodesKnown(rc.View())
    ensures rc.env.apiUp && NodesKnown(rc.View()) ==> ok
  {
    names := {};
    ok := rc.Call();
    if !ok {
      return;
    }
    var all: set<string> := {};
    var k := rc.FindDc((p: PodView) => !p.info.hasPvc);
    if k < |rc.dcPods| {
      assert InDc(rc.View(), rc.at[k]);
      return {}, false;
    }
    all := NodeNames(rc);
    if exists n :: n in all && n !in rc.env.nodes {
      return {}, false;
    }
    names := set n | n in all && HasTaint(rc.env.nodes[n], value);
    assert names == TaintedWith(rc.View(), value);
  }

  method NodeNames(rc: Context) returns (all: set<string>)
    requires rc.Valid()
    ensures forall n :: n in all <==> CaresAbout(rc.View(), n)
  {
    all := {};
    for k := 0 to |rc.dcPods|
      invariant forall n :: n in all <==> n != "" && exists l :: 0 <= l < k && NamesNode(rc.dcPods[l], n)
    {
      var info := rc.dcPods[k].info;
      if info.pvcNode != "" {
        all := all + {info.pvcNode};
      }
      if info.node != "" {
        all := all + {info.node};
      }
      assert NamesNode(rc.dcPods[k], info.node) && NamesNode(rc.dcPods[k], info.pvcNode);
    }
    forall n ensures n in all <==> CaresAbout(rc.View(), n) {
      if n in all {
        var l :| 0 <= l < |rc.dcPods| && NamesNode(rc.dcPods[l], n);
        assert InDc(rc.View(), rc.at[l]);
      }
      if CaresAbout(rc.View(), n) {
        var i :| InDc(rc.View(), i) && (rc.View().pods[i].info.node == n || rc.View().pods[i].info.pvcNode == n);
        var l :| 0 <= l < |rc.at| && rc.at[l] == i;
        assert NamesNode(rc.dcPods[l], n);
      }
    }
  }

  ghost predicate NamesNode(p: Pod, n: string) {
    p.info.node == n || p.info.pvcNode == n
  }

  /** Both kinds of tainted nodes. */
  method AllTainted(rc: Context) returns (evacuating: set<string>, goingDown: set<string>, ok: bool)
    requires rc.Valid()
    ensures ok ==> evacuating == Evacuating(rc.View()) && goingDown == GoingDown(rc.View()) && NodesKnown(rc.View())
    ensures rc.env.apiUp && NodesKnown(rc.View()) ==> ok
  {
    goingDown := {};
    evacuating, ok := TaintedNodes(rc, EVACUATE_ALL_DATA);
    if ok {
      goingDown, ok := TaintedNodes(rc, PLANNED_DOWNTIME);
    }
  }

  // ----- Edits -----

  /** `w` with the selected pods at list positions below `n` edited. */
  ghost predicate EditedUpTo(w: World, w': World, sel: set<int>, e: Edit, n: int) {
    && w' == w.(pods := w'.pods) && |w'.pods| == |w.pods|
    && forall i :: 0 <= i < |w.pods| ==> w'.pods[i] == if i in sel && i < n then Edited(w.pods[i], e) else w.pods[i]
  }

  method EditPod(rc: Context, p: Pod, ghost i: int, e: Edit) returns (ok: bool)
    requires rc.Valid() && 0 <= i < |rc.clusterPods| && rc.clusterPods[i] == p
    modifies p
    ensures rc.env.apiUp ==> ok
    ensures rc.View() == if ok then SetPod(old(rc.View()), i, Edited(old(p.View()), e)) else old(rc.View())
  {
    ok := true;
    if e.Delete? && p.info.mgmtUp {
      ok := rc.Call();  // drain
    }
    if ok {
      ok := rc.Call();
    }
    if ok {
      WriteEdit(p, e);
    }
  }

  method WriteEdit(p: Pod, e: Edit)
    modifies p
    ensures p.View() == Edited(old(p.View()), e)
  {
    match e
    case Clean => p.failure := None;
    case Fail(f) => p.failure := Some(f);
    case Delete => p.removed := true;
  }

  /** Edits every pod of the datacenter that satisfies `choose`. */
  method EditAll(rc: Context, choose: PodView -> bool, e: Edit, ghost sel: set<int>) returns (any: bool, ok: bool)
    requires rc.Valid()
    requires forall i :: i in sel <==> InDc(rc.View(), i) && choose(rc.View().pods[i])
    modifies rc.clusterPods
    ensures EditSpec(old(rc.View()), rc.View(), sel, e, if ok then Requeue else Error)
    ensures any <==> sel != {}
    ensures !ok ==> any
    ensures !any ==> rc.View() == old(rc.View())
  {
    ghost var w := rc.View();
    any := false;
    for k := 0 to |rc.dcPods|
      invariant EditedUpTo(w, rc.View(), sel, e, Bound(rc, k))
      invariant any ==> sel != {}
      invariant !any ==> forall i :: i in sel ==> i >= Bound(rc, k)
    {
      var chosen;
      chosen, ok := EditAt(rc, k, choose, e, sel, w);
      any := any || chosen;
      if !ok {
        return;
      }
    }
    assert !any ==> rc.View().pods == w.pods;
    ok := true;
  }

  method EditAt(rc: Context, k: nat, choose: PodView -> bool, e: Edit, ghost sel: set<int>, ghost w: World)
    returns (chosen: bool, ok: bool)
    requires rc.Valid() && k < |rc.dcPods| && w.dc.spec.name == rc.dc.spec.name
    requires forall i :: i in sel <==> InDc(w, i) && choose(w.pods[i])
    requires EditedUpTo(w, rc.View(), sel, e, rc.at[k])
    modifies rc.dcPods[k]
    ensures rc.env.apiUp ==> ok
    ensures chosen <==> rc.at[k] in sel
    ensures !chosen ==> forall i :: i in sel && i < Bound(rc, k + 1) ==> i < rc.at[k]
    ensures !ok ==> chosen
    ensures EditedUpTo(w, rc.View(), sel, e, if ok then Bound(rc, k + 1) else rc.at[k])
  {
    var pod := rc.dcPods[k];
    BoundStep(rc, w, sel, k);
    assert pod.View() == rc.View().pods[rc.at[k]] == w.pods[rc.at[k]];
    chosen, ok := choose(pod.View()), true;
    if chosen {
      ok := EditPod(rc, pod, rc.at[k], e);
    }
  }

  ghost function Bound(rc: Context, k: nat): int
    requires rc.Valid() && k <= |rc.dcPods|
  {
    if k < |rc.dcPods| then rc.at[k] else |rc.clusterPods|
  }

  lemma BoundStep(rc: Context, w: World, sel: set<int>, k: nat)
    requires rc.Valid() && k < |rc.dcPods| && |w.pods| == |rc.clusterPods|
    requires forall i :: i in sel ==> 0 <= i < |w.pods| && rc.clusterPods[i].info.dc == rc.dc.spec.name
    ensures forall i :: i in sel && i < Bound(rc, k + 1) ==> i <= rc.at[k]
  {
    forall i | i in sel && i < Bound(rc, k + 1) ensures i <= rc.at[k] {
      var l :| 0 <= l < |rc.at| && rc.at[l] == i;
    }
  }

  // ----- Failing a drain -----

  /** Annotates the pods of a node. A pod that already carries the same failure counts as updated. */
  method FailEmm(rc: Context, node: string, failure: string) returns (didUpdate: bool, ok: bool)
    requires rc.Valid()
    modifies rc.clusterPods
    ensures EditSpec(old(rc.View()), rc.View(), UnfailedOn(old(rc.View()), {node}), Fail(failure), if ok then Requeue else Error)
    ensures ok ==> (didUpdate <==> exists i :: TakesFailure(old(rc.View()), i, node, failure))
    ensures !ok ==> Hosts(old(rc.View()), {node})
  {
    ghost var w := rc.View();
    var k := rc.FindDc((p: PodView) => p.info.node == node && p.failure == Some(failure));
    ghost var sel := UnfailedOn(w, {node});
    var any;
    any, ok := EditAll(rc, (p: PodView) => p.info.node == node && p.failure.None?, Fail(failure), sel);
    didUpdate := any || k < |rc.dcPods|;
    if any {
      ghost var i :| i in sel;
      assert TakesFailure(w, i, node, failure);
    }
    assert k < |rc.dcPods| ==> TakesFailure(w, rc.at[k], node, failure);
  }

  ghost predicate TakesFailure(w: World, i: int, node: string, failure: string) {
    On(w, i, {node}) && (w.pods[i].failure.None? || w.pods[i].failure == Some(failure))
  }

  ghost function UnfailedOn(w: World, nodes: set<string>): set<int> {
    set i | 0 <= i < |w.pods| && On(w, i, nodes) && w.pods[i].failure.None?
  }

  ghost predicate FailedOn(w: World, w': World, nodes: set<string>, failure: string) {
    && w' == w.(pods := w'.pods) && |w'.pods| == |w.pods|
    && forall i :: 0 <= i < |w.pods| ==> w'.pods[i] == if On(w, i, nodes) then Edited(w.pods[i], Fail(failure)) else w.pods[i]
  }

  /** Fails the drain of every node in the set. */
  method FailNodes(rc: Context, nodes: set<string>, failure: string) returns (didUpdate: bool, ok: bool)
    requires rc.Valid() && forall i :: !Failed(rc.View(), i)
    modifies rc.clusterPods
    ensures EditSpec(old(rc.View()), rc.View(), PodsOn(old(rc.View()), nodes), Fail(failure), if ok then Requeue else Error)
    ensures ok ==> (didUpdate <==> Hosts(old(rc.View()), nodes))
    ensures ok && !didUpdate ==> rc.View() == old(rc.View())
    ensures !ok ==> Hosts(old(rc.View()), nodes)
  {
    ghost var w := rc.View();
    didUpdate := false;
    var todo := nodes;
    while todo != {}
      invariant todo <= nodes
      invariant FailedOn(w, rc.View(), nodes - todo, failure)
      invariant didUpdate <==> Hosts(w, nodes - todo)
      decreases |todo|
    {
      var node :| node in todo;
      var updated;
      updated, ok := FailNext(rc, node, failure, w, nodes - todo);
      assert nodes - todo + {node} == nodes - (todo - {node});
      if !ok {
        ghost var i :| On(w, i, {node});
        assert On(w, i, nodes);
        return;
      }
      didUpdate := didUpdate || updated;
      todo := todo - {node};
    }
    assert nodes - todo == nodes;
    assert !didUpdate ==> rc.View().pods == w.pods;
    ok := true;
  }

  ghost predicate PartlyFailedOn(w: World, w': World, nodes: set<string>, failure: string) {
    && w' == w.(pods := w'.pods) && |w'.pods| == |w.pods|
    && forall i :: 0 <= i < |w.pods| ==> w'.pods[i] == w.pods[i] || (On(w, i, nodes) && w'.pods[i] == Edited(w.pods[i], Fail(failure)))
  }

  method FailNext(rc: Context, node: string, failure: string, ghost w: World, ghost done: set<string>)
    returns (updated: bool, ok: bool)
    requires rc.Valid() && forall i :: !Failed(w, i)
    requires FailedOn(w, rc.View(), done, failure) && node !in done
    modifies rc.clusterPods
    ensures ok ==> FailedOn(w, rc.View(), done + {node}, failure) && (updated <==> Hosts(w, {node}))
    ensures !ok ==> !rc.env.apiUp && PartlyFailedOn(w, rc.View(), done + {node}, failure) && Hosts(w, {node})
    ensures Hosts(w, done + {node}) <==> Hosts(w, done) || Hosts(w, {node})
  {
    ghost var v := rc.View();
    updated, ok := FailEmm(rc, node, failure);
    FailedMore(w, v, rc.View(), done, node, failure, if ok then Requeue else Error);
    HostsMore(w, done, node);
    if !ok {
      PartlyFailed(w, v, rc.View(), done, node, failure);
    }
  }

  lemma FailedMore(w: World, v: World, v': World, done: set<string>, node: string, failure: string, r: Result)
    requires forall i :: !Failed(w, i)
    requires FailedOn(w, v, done, failure) && node !in done
    requires EditSpec(v, v', UnfailedOn(v, {node}), Fail(failure), r)
    ensures r == Requeue ==> FailedOn(w, v', done + {node}, failure)
    ensures (exists i :: TakesFailure(v, i, node, failure)) <==> Hosts(w, {node})
    ensures Hosts(v, {node}) <==> Hosts(w, {node})
  {
    forall i | On(w, i, {node}) ensures v.pods[i].failure.None? {
      assert !Failed(w, i);
      assert !On(w, i, done);
    }
    if i :| On(v, i, {node}) {
      assert On(w, i, {node}) && TakesFailure(v, i, node, failure);
    }
    if i :| On(w, i, {node}) {
      assert On(v, i, {node}) && TakesFailure(v, i, node, failure);
    }
  }

  lemma HostsMore(w: World, done: set<string>, node: string)
    ensures Hosts(w, done + {node}) <==> Hosts(w, done) || Hosts(w, {node})
  {
    if i :| On(w, i, done + {node}) {
      assert On(w, i, done) || On(w, i, {node});
    }
    if i :| On(w, i, done) {
      assert On(w, i, done + {node});
    }
    if i :| On(w, i, {node}) {
      assert On(w, i, done + {node});
    }
  }

  lemma PartlyFailed(w: World, v: World, v': World, done: set<string>, node: string, failure: string)
    requires FailedOn(w, v, done, failure)
    requires EditSpec(v, v', UnfailedOn(v, {node}), Fail(failure), Error)
    ensures PartlyFailedOn(w, v', done + {node}, failure)
  {
    forall i | 0 <= i < |w.pods|
      ensures v'.pods[i] == w.pods[i] || (On(w, i, done + {node}) && v'.pods[i] == Edited(w.pods[i], Fail(failure)))
    {
      if i in UnfailedOn(v, {node}) {
        assert On(w, i, {node});
      }
    }
  }

  // ----- Removing pods -----

  method RemoveNotReadyPodsOn(rc: Context, tainted: set<string>) returns (did: bool, ok: bool)
    requires rc.Valid() && tainted == Tainted(rc.View())
    modifies rc.clusterPods
    ensures EditSpec(old(rc.View()), rc.View(), UnreadyPodsOn(old(rc.View()), tainted), Delete, if ok then Requeue else Error)
    ensures did <==> exists i :: UnreadyOn(old(rc.View()), i, tainted)
    ensures !ok ==> did
    ensures !did ==> rc.View() == old(rc.View())
  {
    ghost var sel := UnreadyPodsOn(rc.View(), tainted);
    assert (exists i :: UnreadyOn(rc.View(), i, tainted)) <==> sel != {} by {
      if i :| UnreadyOn(rc.View(), i, tainted) {
        assert i in sel;
      }
    }
    did, ok := EditAll(rc, (p: PodView) => p.info.node in tainted && !p.info.ready, Delete, sel);
  }

  method RemoveNextPodFromEvacuateDataNode(rc: Context, nodes: set<string>) returns (did: bool, ok: bool)
    requires rc.Valid()
    modifies rc.clusterPods
    ensures did <==> Hosts(old(rc.View()), nodes)
    ensures did ==> exists k :: On(old(rc.View()), k, nodes) && EditSpec(old(rc.View()), rc.View(), {k}, Delete, if ok then Requeue else Error)
    ensures !did ==> ok && rc.View() == old(rc.View())
  {
    ghost var w := rc.View();
    var todo := nodes;
    while todo != {}
      invariant todo <= nodes && rc.View() == w
      invariant forall i :: On(w, i, nodes) ==> w.pods[i].info.node in todo
      decreases |todo|
    {
      var node :| node in todo;
      todo := todo - {node};
      var k := rc.FindDc((p: PodView) => p.info.node == node);
      if k < |rc.dcPods| {
        assert On(w, rc.at[k], nodes);
        ok := EditPod(rc, rc.dcPods[k], rc.at[k], Delete);
        return true, ok;
      }
    }
    return false, true;
  }

  method RemoveAllPodsFromOnePlannedDowntimeNode(rc: Context) returns (did: bool, ok: bool)
    requires rc.Valid() && NodesKnown(rc.View())
    modifies rc.clusterPods
    ensures did ==> Hosts(old(rc.View()), GoingDown(old(rc.View())))
    ensures did ==> exists n :: n in GoingDown(old(rc.View())) && Hosts(old(rc.View()), {n}) &&
                      EditSpec(old(rc.View()), rc.View(), PodsOn(old(rc.View()), {n}), Delete, if ok then Requeue else Error)
    ensures !did ==> ok && rc.View() == old(rc.View()) && (rc.env.apiUp ==> !Hosts(rc.View(), GoingDown(rc.View())))
  {
    ghost var w := rc.View();
    var nodes, known := TaintedNodes(rc, PLANNED_DOWNTIME);
    if !known {
      return false, true;
    }
    var todo := nodes;
    while todo != {}
      invariant todo <= nodes && rc.View() == w
      invariant forall i :: On(w, i, nodes) ==> w.pods[i].info.node in todo
      decreases |todo|
    {
      var node :| node in todo;
      todo := todo - {node};
      did, ok := RemoveAllPodsFromNode(rc, node);
      if did {
        ghost var i :| On(w, i, {node});
        assert On(w, i, nodes);
        return;
      }
      assert forall i :: On(w, i, nodes) ==> !On(w, i, {node});
    }
    return false, true;
  }

  method RemoveAllPodsFromNode(rc: Context, node: string) returns (did: bool, ok: bool)
    requires rc.Valid()
    modifies rc.clusterPods
    ensures did <==> Hosts(old(rc.View()), {node})
    ensures did ==> EditSpec(old(rc.View()), rc.View(), PodsOn(old(rc.View()), {node}), Delete, if ok then Requeue else Error)
    ensures !did ==> ok && rc.View() == old(rc.View())
  {
    ghost var w := rc.View();
    ghost var sel := PodsOn(w, {node});
    assert Hosts(w, {node}) <==> sel != {} by {
      if i :| On(w, i, {node}) {
        assert i in sel;
      }
    }
    did, ok := EditAll(rc, (p: PodView) => p.info.node == node, Delete, sel);
  }

  // ----- Replacing stranded pods -----

  /** Stranded pods at list positions below `n` were handed over for replacement. */
  ghost predicate HandedOver(w: World, w': World, n: int) {
    && EditedUpTo(w, w'.(dc := w.dc), StrandedPods(w), Delete, n)
    && w'.dc == w.dc.(replaceNodes := w'.dc.replaceNodes)
    && w.dc.replaceNodes <= w'.dc.replaceNodes
    && (forall x :: x in w'.dc.replaceNodes[|w.dc.replaceNodes|..] ==> exists i :: Stranded(w, i) && w.pods[i].info.name == x)
    && (forall i :: Stranded(w, i) && i < n ==> w.pods[i].info.name in w'.dc.replaceNodes)
  }

  method PerformEvacuateDataPodReplace(rc: Context, evacuating: set<string>) returns (did: bool, ok: bool)
    requires rc.Valid() && evacuating == Evacuating(rc.View())
    modifies rc.dc, rc.clusterPods
    ensures ok ==> (did <==> exists i :: Stranded(old(rc.View()), i))
    ensures ok && did ==> ReplaceSpec(old(rc.View()), rc.View(), Requeue)
    ensures ok && !did ==> rc.View() == old(rc.View())
    ensures !ok ==> !rc.env.apiUp && ReplaceSpec(old(rc.View()), rc.View(), Error)
  {
    ghost var w := rc.View();
    did := false;
    for k := 0 to |rc.dcPods|
      invariant HandedOver(w, rc.View(), Bound(rc, k))
      invariant did ==> exists i :: Stranded(w, i)
      invariant !did ==> rc.View() == w && forall i :: Stranded(w, i) ==> i >= Bound(rc, k)
    {
      var stranded;
      stranded, ok := ReplaceIfStranded(rc, k, evacuating, w);
      if !ok {
        AllHandedOver(w, rc.View(), rc.at[k], Error);
        return;
      }
      did := did || stranded;
    }
    AllHandedOver(w, rc.View(), Bound(rc, |rc.dcPods|), Requeue);
    ok := true;
  }

  lemma AllHandedOver(w: World, w': World, n: int, r: Result)
    requires HandedOver(w, w', n)
    requires (r == Error && Fails(w)) || (r == Requeue && n >= |w.pods|)
    ensures ReplaceSpec(w, w', r)
  {
    forall i | 0 <= i < |w.pods| && w'.pods[i] != w.pods[i] ensures w.pods[i].info.name in w'.dc.replaceNodes {
      assert i in StrandedPods(w);
    }
  }

  method ReplaceIfStranded(rc: Context, k: nat, evacuating: set<string>, ghost w: World) returns (stranded: bool, ok: bool)
    requires rc.Valid() && k < |rc.dcPods| && evacuating == Evacuating(w) && w.dc.spec.name == rc.dc.spec.name
    requires HandedOver(w, rc.View(), rc.at[k])
    modifies rc.dc, rc.dcPods[k]
    ensures ok ==> (stranded <==> Stranded(w, rc.at[k])) && HandedOver(w, rc.View(), Bound(rc, k + 1))
    ensures ok && !stranded ==> rc.View() == old(rc.View()) && forall i :: Stranded(w, i) && i < Bound(rc, k + 1) ==> i < rc.at[k]
    ensures !ok ==> !rc.env.apiUp && HandedOver(w, rc.View(), rc.at[k])
  {
    hide HandedOver;
    ghost var i := rc.at[k];
    var pod := rc.dcPods[k];
    NotYetTouched(w, rc.View(), i);
    stranded, ok := false, true;
    if !pod.info.ready && Bootstrapped(pod.View(), rc.dc.hostIds) && pod.info.unschedulable {
      ok := rc.Call();  // the pod's volume claim
      if !ok {
        return;
      }
      stranded := pod.info.pvcNode != "" && pod.info.node != pod.info.pvcNode && pod.info.pvcNode in evacuating;
    }
    if stranded {
      ok := StartNodeReplace(rc, pod, i, w);
    }
    if ok {
      UpToNextPod(rc, w, rc.View(), k);
    }
  }

  lemma NotYetTouched(w: World, v: World, i: int)
    requires HandedOver(w, v, i) && 0 <= i < |v.pods|
    ensures |w.pods| == |v.pods| && v.pods[i] == w.pods[i] && v.dc.hostIds == w.dc.hostIds && v.dc.spec == w.dc.spec
  {
  }

  /** From one of the datacenter's pods to the next there is nothing more to hand over. */
  lemma UpToNextPod(rc: Context, w: World, v: World, k: nat)
    requires rc.Valid() && k < |rc.dcPods| && |v.pods| == |rc.clusterPods| && w.dc.spec.name == rc.dc.spec.name
    requires forall i :: 0 <= i < |v.pods| ==> v.pods[i].info == rc.clusterPods[i].info
    requires HandedOver(w, v, rc.at[k] + 1) || (HandedOver(w, v, rc.at[k]) && !Stranded(w, rc.at[k]))
    ensures HandedOver(w, v, Bound(rc, k + 1))
    ensures !Stranded(w, rc.at[k]) ==> forall i :: Stranded(w, i) && i < Bound(rc, k + 1) ==> i < rc.at[k]
  {
    BoundStep(rc, w, StrandedPods(w), k);
    forall j | Stranded(w, j) ensures j in StrandedPods(w) {
    }
  }

  lemma SomeElement(s: seq<string>)
    requires s != []
    ensures exists n :: n in s
  {
    assert s[0] in s;
  }

  /** Without stranded pods there is nothing to replace. */
  lemma NothingReplaced(w: World, w': World, r: Result)
    requires ReplaceSpec(w, w', r) && forall i :: !Stranded(w, i)
    ensures w' == w
  {
    forall i | 0 <= i < |w.pods| ensures w'.pods[i] == w.pods[i] {
      assert !Stranded(w, i);
      assert i !in StrandedPods(w);
      assert w'.(dc := w.dc).pods[i] == w'.pods[i];
    }
    var added := w'.dc.replaceNodes[|w.dc.replaceNodes|..];
    if added != [] {
      SomeElement(added);
    }
    assert w'.dc.replaceNodes == w.dc.replaceNodes + added;
    assert w'.pods == w.pods;
  }

  /** Records the pod for replacement, then removes its volume claim and the pod. */
  method StartNodeReplace(rc: Context, pod: Pod, ghost i: int, ghost w: World) returns (ok: bool)
    requires rc.Valid() && 0 <= i < |rc.clusterPods| && rc.clusterPods[i] == pod
    requires HandedOver(w, rc.View(), i) && Stranded(w, i)
    modifies rc.dc, pod
    ensures ok ==> HandedOver(w, rc.View(), i + 1)
    ensures !ok ==> !rc.env.apiUp && HandedOver(w, rc.View(), i)
  {
    ok := rc.Call();
    if !ok {
      return;
    }
    NameHandedOver(w, rc.View(), i);
    AddToReplaceNodes(rc, pod.info.name);
    ok := rc.Call();
    if !ok {
      return;
    }
    ghost var named := rc.View();
    ok := EditPod(rc, pod, i, Delete);
    if ok {
      PodHandedOver(w, named, i);
    }
  }

  method AddToReplaceNodes(rc: Context, name: string)
    modifies rc.dc
    ensures rc.View() == Named(old(rc.View()), name)
  {
    rc.dc.replaceNodes := rc.dc.replaceNodes + [name];
  }

  function Named(w: World, name: string): World {
    w.(dc := w.dc.(replaceNodes := w.dc.replaceNodes + [name]))
  }

  lemma NameHandedOver(w: World, v: World, i: int)
    requires HandedOver(w, v, i) && Stranded(w, i)
    ensures var n := w.pods[i].info.name; HandedOver(w, Named(v, n), i) && n in Named(v, n).dc.replaceNodes
  {
    var before, after := v.dc.replaceNodes, Named(v, w.pods[i].info.name).dc.replaceNodes;
    assert after[|w.dc.replaceNodes|..] == before[|w.dc.replaceNodes|..] + [w.pods[i].info.name];
    assert after[|before|] == w.pods[i].info.name;
    forall j | Stranded(w, j) && j < i ensures w.pods[j].info.name in after {
      assert w.pods[j].info.name in before;
    }
  }

  lemma PodHandedOver(w: World, v: World, i: int)
    requires HandedOver(w, v, i) && Stranded(w, i) && w.pods[i].info.name in v.dc.replaceNodes
    ensures HandedOver(w, SetPod(v, i, Edited(v.pods[i], Delete)), i + 1)
  {
    assert i in StrandedPods(w);
  }

  // ----- The guards -----

  method DownRackNames(rc: Context) returns (racks: set<string>)
    requires rc.Valid()
    ensures racks == DownRacks(rc.View())
  {
    racks := {};
    ghost var w := rc.View();
    for k := 0 to |rc.dcPods|
      invariant forall n :: n in racks <==> exists l :: 0 <= l < k && DownAt(rc, w, l, n)
    {
      var pod := rc.dcPods[k];
      if !pod.info.ready && Bootstrapped(pod.View(), rc.dc.hostIds) {
        assert DownAt(rc, w, k, pod.info.rack);
        racks := racks + {pod.info.rack};
      }
    }
    forall n | n in DownRacks(w) ensures n in racks {
      var i :| 0 <= i < |w.pods| && Down(w, i) && w.pods[i].info.rack == n;
      var l :| 0 <= l < |rc.at| && rc.at[l] == i;
      assert DownAt(rc, w, l, n);
    }
  }

  ghost predicate DownAt(rc: Context, w: World, l: int, n: string) {
    0 <= l < |rc.at| && Down(w, rc.at[l]) && w.pods[rc.at[l]].info.rack == n
  }

  method DcPodNames(rc: Context) returns (names: set<string>)
    requires rc.Valid()
    ensures names == PodNames(rc.View())
  {
    names := set k | 0 <= k < |rc.dcPods| :: rc.dcPods[k].info.name;
    forall n | n in PodNames(rc.View()) ensures n in names {
      var i :| 0 <= i < |rc.View().pods| && InDc(rc.View(), i) && rc.View().pods[i].info.name == n;
      var l :| 0 <= l < |rc.at| && rc.at[l] == i;
    }
    forall n | n in names ensures n in PodNames(rc.View()) {
      var l :| 0 <= l < |rc.dcPods| && rc.dcPods[l].info.name == n;
      assert InDc(rc.View(), rc.at[l]);
    }
  }

  /** The tainted nodes that host no pod of the down rack. */
  method NodesOutside(rc: Context, tainted: set<string>, rack: string) returns (nodes: set<string>)
    requires rc.Valid() && tainted == Tainted(rc.View())
    ensures nodes == Outside(rc.View(), rack)
  {
    var home: set<string> := set k | 0 <= k < |rc.dcPods| && rc.dcPods[k].info.rack == rack :: rc.dcPods[k].info.node;
    nodes := tainted - home;
    ghost var w := rc.View();
    forall n ensures n in home <==> exists i :: On(w, i, {n}) && w.pods[i].info.rack == rack {
      if n in home {
        var l :| 0 <= l < |rc.dcPods| && rc.dcPods[l].info.rack == rack && rc.dcPods[l].info.node == n;
        assert On(w, rc.at[l], {n});
      }
      if i :| On(w, i, {n}) && w.pods[i].info.rack == rack {
        var l :| 0 <= l < |rc.at| && rc.at[l] == i;
      }
    }
    forall n ensures n in nodes <==> n in Outside(w, rack) {
    }
  }

  method CheckEmm(rc: Context) returns (r: Result)
    requires rc.Valid()
    modifies rc.dc, rc.clusterPods
    ensures EmmSpec(old(rc.View()), rc.View(), r)
  {
    if !rc.env.pspEnabled {
      return Continue;
    }
    r := CheckNodeEmm(rc);
  }

  /** Gives up on a failed query, otherwise follows the guards. */
  ghost predicate Guarded(w: World, w': World, r: Result, guards: bool) {
    (r == Error && w' == w && (Fails(w) || !NodesKnown(w))) || (NodesKnown(w) && guards)
  }

  method CheckNodeEmm(rc: Context) returns (r: Result)
    requires rc.Valid()
    modifies rc.dc, rc.clusterPods
    ensures Guarded(old(rc.View()), rc.View(), r, GuardsSpec(old(rc.View()), rc.View(), r))
  {
    ghost var w := rc.View();
    var evacuating, goingDown, ok := AllTainted(rc);
    if !ok {
      return Error;
    }
    var tainted := evacuating + goingDown;
    assert StalePods(w) != {} <==> exists i :: Stale(w, i) by {
      if i :| Stale(w, i) {
        assert i in StalePods(w);
      }
    }
    var did;
    did, ok := EditAll(rc, (p: PodView) => p.failure.Some? && p.info.node !in tainted, Clean, StalePods(w));
    if did {
      return if ok then Requeue else Error;
    }
    // whatever is still annotated sits on a tainted node
    evacuating, goingDown, ok := AllTainted(rc);
    if !ok {
      return Error;
    }
    var k := rc.FindDc((p: PodView) => p.failure.Some? && p.info.node in evacuating + goingDown);
    if k < |rc.dcPods| {
      assert Failed(w, rc.at[k]);
      return Requeue;
    }
    assert forall i :: !Failed(w, i) by {
      forall i ensures !Failed(w, i) {
        assert !Stale(w, i);
      }
    }
    if StatusOf(rc.dc.conditions, DcInitialized) != True {
      return Continue;
    }
    r := CheckFailures(rc);
  }

  method CheckFailures(rc: Context) returns (r: Result)
    requires rc.Valid() && NodesKnown(rc.View()) && forall i :: !Failed(rc.View(), i)
    modifies rc.dc, rc.clusterPods
    ensures Guarded(old(rc.View()), rc.View(), r, FailGuardsSpec(old(rc.View()), rc.View(), r))
  {
    hide DownGuardsSpec, EditSpec, Hosts;
    ghost var w := rc.View();
    var evacuating, goingDown, ok := AllTainted(rc);
    if !ok {
      return Error;
    }
    ok := rc.Call();
    if !ok {
      return Error;
    }
    var tainted := evacuating + goingDown;
    var names := DcPodNames(rc);
    var did;
    if |names| > |Agents(rc.env) - tainted| {
      did, ok := FailNodes(rc, tainted, NOT_ENOUGH_RESOURCES);
      if !ok || did {
        return if ok then Requeue else Error;
      }
    }
    if StatusOf(rc.dc.conditions, DcStopped) == True {
      did, ok := FailNodes(rc, evacuating, GENERIC_FAILURE);
      if !ok || did {
        return if ok then Requeue else Error;
      }
    }
    r := CheckDownRacks(rc, evacuating, tainted);
  }

  method CheckDownRacks(rc: Context, evacuating: set<string>, tainted: set<string>) returns (r: Result)
    requires rc.Valid() && NodesKnown(rc.View()) && forall i :: !Failed(rc.View(), i)
    requires evacuating == Evacuating(rc.View()) && tainted == Tainted(rc.View())
    modifies rc.dc, rc.clusterPods
    ensures Guarded(old(rc.View()), rc.View(), r, DownGuardsSpec(old(rc.View()), rc.View(), r))
  {
    hide RackGuardsSpec, EditSpec, Hosts;
    ghost var w := rc.View();
    var did, ok;
    var racksWithDownPods := DownRackNames(rc);
    if |racksWithDownPods| > 1 {
      did, ok := FailNodes(rc, tainted, TOO_MANY_EXISTING_FAILURES);
      if !ok || did {
        return if ok then Requeue else Error;
      }
    }
    var downRack := "";
    if racksWithDownPods != {} {
      downRack :| downRack in racksWithDownPods;
    }
    assert IsDownRack(w, downRack);
    r := CheckRack(rc, evacuating, tainted, downRack);
  }

  method CheckRack(rc: Context, evacuating: set<string>, tainted: set<string>, downRack: string) returns (r: Result)
    requires rc.Valid() && NodesKnown(rc.View()) && forall i :: !Failed(rc.View(), i)
    requires evacuating == Evacuating(rc.View()) && tainted == Tainted(rc.View())
    modifies rc.dc, rc.clusterPods
    ensures Guarded(old(rc.View()), rc.View(), r, RackGuardsSpec(old(rc.View()), rc.View(), downRack, r))
  {
    hide CarryOutSpec, EditSpec, Hosts;
    ghost var w := rc.View();
    var did, ok;
    if downRack != "" {
      var outside := NodesOutside(rc, tainted, downRack);
      did, ok := FailNodes(rc, outside, TOO_MANY_EXISTING_FAILURES);
      if !ok || did {
        return if ok then Requeue else Error;
      }
    }
    var again, goingDown;
    again, goingDown, ok := AllTainted(rc);
    if !ok {
      return Error;
    }
    did, ok := RemoveNotReadyPodsOn(rc, again + goingDown);
    if did {
      return if ok then Requeue else Error;
    }
    r := CarryOut(rc, downRack);
  }

  method CarryOut(rc: Context, downRack: string) returns (r: Result)
    requires rc.Valid() && NodesKnown(rc.View())
    modifies rc.dc, rc.clusterPods
    ensures Guarded(old(rc.View()), rc.View(), r, CarryOutSpec(old(rc.View()), rc.View(), downRack, r))
  {
    hide EditSpec, Hosts, ReplaceSpec, NodesKnown;
    ghost var w := rc.View();
    var evacuating, ok := TaintedNodes(rc, EVACUATE_ALL_DATA);
    if !ok {
      return Error;
    }
    var did;
    if downRack != "" {
      did, ok := PerformEvacuateDataPodReplace(rc, evacuating);
      if !ok {
        if forall i :: !Stranded(w, i) {
          NothingReplaced(w, rc.View(), Error);
        }
        return Error;
      }
      return if did then Requeue else Continue;
    }
    did, ok := RemoveNextPodFromEvacuateDataNode(rc, evacuating);
    if did {
      return if ok then Requeue else Error;
    }
    did, ok := RemoveAllPodsFromOnePlannedDowntimeNode(rc);
    r := if did then (if ok then Requeue else Error) else Continue;
  }
}
