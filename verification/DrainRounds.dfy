/** The one-rack rule over successive drain checks of one datacenter, with pods going, coming back
    and appearing in between: when it is kept, exactly, and how a pod on its way out that still
    reports ready breaks it. */
module DrainRounds {
  import opened Model
  import opened EmmSpecs
  import opened Draining
  import opened DrainHandover
  import opened Fleet

  /** A bootstrapped pod that is down or on its way out. */
  ghost predicate Out(w: World, i: int) {
    InDc(w, i) && Bootstrapped(w.pods[i], w.dc.hostIds) && (!w.pods[i].info.ready || w.pods[i].info.terminating)
  }

  ghost predicate OutInOneRack(w: World) {
    forall i, j :: Out(w, i) && Out(w, j) ==> w.pods[i].info.rack == w.pods[j].info.rack
  }

  // ----- From one check to the next -----

  predicate InPlaceOf(p: PodView, q: PodView) {
    q.info.name == p.info.name && q.info.dc == p.info.dc && q.info.rack == p.info.rack && !q.removed
  }

  /** Pod `q` is pod `p` later: it is on its way out if it was or was removed, only a pod on its way
      out loses readiness, and one that has bootstrapped since is ready. */
  ghost predicate Later(w: World, v: World, p: PodView, q: PodView) {
    && InPlaceOf(p, q) && q.info.terminating == (p.info.terminating || p.removed)
    && (q.info.ready || !p.info.ready || q.info.terminating)
    && (Bootstrapped(q, v.dc.hostIds) ==> Bootstrapped(p, w.dc.hostIds) || (q.info.ready && !q.info.terminating))
  }

  /** Pod `q` has taken the place of pod `p`, which was on its way out. It counts as bootstrapped only
      if `p` did, and may be anywhere and in any condition. */
  ghost predicate Succeeds(w: World, v: World, p: PodView, q: PodView) {
    && InPlaceOf(p, q) && (p.info.terminating || p.removed)
    && (Bootstrapped(q, v.dc.hostIds) ==> Bootstrapped(p, w.dc.hostIds))
  }

  /** A pod that was not there: it is not bootstrapped yet, or up. */
  ghost predicate Appears(v: World, q: PodView) {
    !q.removed && (Bootstrapped(q, v.dc.hostIds) ==> q.info.ready && !q.info.terminating)
  }

  /** What the next check may find; `from` tells for every pod whose place it has, or -1. Pods may
      vanish and be listed in another order, taints come and go, and the status and the spec may
      have changed. */
  ghost predicate NextRound(w: World, v: World, from: seq<int>) {
    && v.dc.spec.name == w.dc.spec.name && |from| == |v.pods|
    && forall i :: 0 <= i < |v.pods| ==>
         if from[i] == -1 then Appears(v, v.pods[i])
         else 0 <= from[i] < |w.pods|
              && (Later(w, v, w.pods[from[i]], v.pods[i]) || Succeeds(w, v, w.pods[from[i]], v.pods[i]))
  }

  ghost predicate Round(w: World, v: World) {
    exists w', r, from :: EmmSpec(w, w', r) && NextRound(w', v, from)
  }

  lemma EditsKeep(w: World, w': World, r: Result, i: int)
    requires EmmSpec(w, w', r)
    ensures w'.dc == w.dc.(replaceNodes := w'.dc.replaceNodes) && |w'.pods| == |w.pods|
    ensures 0 <= i < |w.pods| ==> w'.pods[i].info == w.pods[i].info && w'.pods[i].state == w.pods[i].state
  {
    hide EmmSpec, PastGuards, NoneUnready, Hosts, TaintedWith;
    var a := EmmActs(w, w', r);
  }

  /** A pod found out has the place of one that was out or that the check removed. */
  lemma OutBecause(w: World, w': World, v: World, r: Result, from: seq<int>, i: int)
    requires NoneRemoved(w) && EmmSpec(w, w', r) && NextRound(w', v, from) && Out(v, i)
    ensures var j := from[i];
            && InDc(w, j) && v.pods[i].info.rack == w.pods[j].info.rack && Bootstrapped(w.pods[j], w.dc.hostIds)
            && (Out(w, j) || NewlyRemoved(w, w', j))
  {
    hide EmmSpec;
    EditsKeep(w, w', r, from[i]);
  }

  // ----- When a round keeps the rule -----

  /** A pod that is out, or would be with `sel` removed. */
  ghost predicate OutWith(w: World, sel: set<int>, i: int) {
    Out(w, i) || (InDc(w, i) && i in sel && Bootstrapped(w.pods[i], w.dc.hostIds))
  }

  ghost predicate OneRackWith(w: World, sel: set<int>) {
    forall i, j :: OutWith(w, sel, i) && OutWith(w, sel, j) ==> w.pods[i].info.rack == w.pods[j].info.rack
  }

  /** Whichever pods may be removed next, they share a rack with all pods that are out. */
  ghost predicate VictimsShareRack(w: World) {
    if Hosts(w, Evacuating(w)) then forall k :: On(w, k, Evacuating(w)) ==> OneRackWith(w, {k})
    else forall n :: n in GoingDown(w) && Hosts(w, {n}) ==> OneRackWith(w, PodsOn(w, {n}))
  }

  /** If the check may go on to remove ready pods, these share a rack with all pods that are out. */
  ghost predicate Careful(w: World) {
    NoneRemoved(w) && (MayRemoveReady(w) ==> VictimsShareRack(w))
  }

  /** The pods an action removes, other than pods that are out already. */
  lemma RemovedBy(w: World, w': World, r: Result, a: Action) returns (sel: set<int>)
    requires OutInOneRack(w) && Careful(w) && Acts(w, w', r, a)
    ensures OneRackWith(w, sel)
    ensures forall i :: NewlyRemoved(w, w', i) && Bootstrapped(w.pods[i], w.dc.hostIds) ==> OutWith(w, sel, i)
  {
    hide PastGuards, NoneUnready, TaintedWith;
    sel := match a case Evacuates(k) => {k} case TakesDown(n) => PodsOn(w, {n}) case _ => {};
    forall i | NewlyRemoved(w, w', i) && Bootstrapped(w.pods[i], w.dc.hostIds) ensures OutWith(w, sel, i) {
      match a
      case RemovesUnready(rack) => OnlyRemovesSelected(w, w', UnreadyPodsOn(w, Tainted(w)), r, i);
      case Replaces(rack) => OnlyRemovesSelected(w, w'.(dc := w.dc), StrandedPods(w), r, i);
      case Evacuates(k) => OnlyRemovesSelected(w, w', {k}, r, i);
      case TakesDown(n) => OnlyRemovesSelected(w, w', PodsOn(w, {n}), r, i);
      case _ => NothingRemoved(w, w', r, a, i);
    }
  }

  lemma RoundKeepsOneRack(w: World, v: World)
    requires OutInOneRack(w) && Careful(w) && Round(w, v)
    ensures OutInOneRack(v)
  {
    hide EmmSpec, Acts, MayRemoveReady, VictimsShareRack, NewlyRemoved;
    var w', r, from :| EmmSpec(w, w', r) && NextRound(w', v, from);
    var a := EmmActs(w, w', r);
    var sel := RemovedBy(w, w', r, a);
    forall i, j | Out(v, i) && Out(v, j) ensures v.pods[i].info.rack == v.pods[j].info.rack {
      OutBecause(w, w', v, r, from, i);
      OutBecause(w, w', v, r, from, j);
      assert OutWith(w, sel, from[i]) && OutWith(w, sel, from[j]);
    }
  }

  /** However many checks follow each other, with pods going, coming back and appearing in between,
      the bootstrapped pods that are down or on their way out lie in one rack, provided the pods
      each check may remove share a rack with those that are out. */
  lemma {:induction false} RoundsKeepOneRack(ws: seq<World>, t: nat)
    requires t < |ws| && OutInOneRack(ws[0]) && (forall s :: 0 <= s < t ==> Careful(ws[s]) && Round(ws[s], ws[s + 1]))
    ensures OutInOneRack(ws[t])
  {
    hide Careful, Round, OutInOneRack;
    if t > 0 {
      RoundsKeepOneRack(ws, t - 1);
      RoundKeepsOneRack(ws[t - 1], ws[t]);
    }
  }

  /** No pod that is out still reports ready, no node going down hosts pods of two racks, and every
      down pod has its rack label. */
  ghost predicate Orderly(w: World) {
    && OneRackPerNode(w, GoingDown(w)) && DownLabelled(w) && NoneRemoved(w)
    && forall i :: Out(w, i) ==> Down(w, i)
  }

  /** That is enough. */
  lemma OrderlyIsCareful(w: World)
    requires Orderly(w)
    ensures Careful(w)
  {
    hide TaintedWith, OneRackPerNode, DownLabelled;
    if MayRemoveReady(w) {
      LabelledVictims(w);
      forall sel | InOneRackWith(w, sel) ensures OneRackWith(w, sel) {
        assert forall i :: OutWith(w, sel, i) ==> Counted(w, sel, i);
      }
    }
  }

  /** A drain goes on: pod `k`, taken off a node being evacuated, may come back as any pod that has its
      place, ready and elsewhere, say, and the next check may evacuate the next pod. */
  lemma ComesBack(w: World, k: int, q: PodView)
    requires MayRemoveReady(w) && On(w, k, Evacuating(w)) && InPlaceOf(w.pods[k], q)
    requires Bootstrapped(w.pods[k], w.dc.hostIds) && forall i :: 0 <= i < |w.pods| ==> !w.pods[i].removed
    ensures Round(w, w.(pods := w.pods[k := q]))
  {
    hide EmmSpec, MayRemoveReady;
    var w', v := Without(w, {k}), w.(pods := w.pods[k := q]);
    RemovesNext(w, {k});
    var from := seq(|w.pods|, i => i);
    forall i | 0 <= i < |w.pods|
      ensures Later(w', v, w'.pods[i], v.pods[i]) || Succeeds(w', v, w'.pods[i], v.pods[i])
    {
      assert i != k ==> w'.pods[i] == v.pods[i] == w.pods[i];
    }
    assert NextRound(w', v, from);
  }

  // ----- And only then -----

  /** A set of pods that the check may remove next, all together. */
  ghost predicate NextVictims(w: World, sel: set<int>) {
    || (exists k :: On(w, k, Evacuating(w)) && sel == {k})
    || (!Hosts(w, Evacuating(w)) && exists n :: n in GoingDown(w) && Hosts(w, {n}) && sel == PodsOn(w, {n}))
  }

  lemma RemovesNext(w: World, sel: set<int>)
    requires MayRemoveReady(w) && NextVictims(w, sel)
    ensures EmmSpec(w, Without(w, sel), Requeue)
  {
    hide EmmSpec, MayRemoveReady, TaintedWith;
    var w' := Without(w, sel);
    assert EditSpec(w, w', sel, Delete, Requeue);
    if k :| On(w, k, Evacuating(w)) && sel == {k} {
      assert Hosts(w, Evacuating(w));
    } else {
      var n :| n in GoingDown(w) && Hosts(w, {n}) && sel == PodsOn(w, {n});
      var i :| On(w, i, {n});
      assert On(w, i, GoingDown(w));
    }
    CarriedOut(w, w');
  }

  /** The world as the next check finds it when nothing else happens, the removed pods still
      reporting what they did. */
  function AsLeft(w: World): World {
    w.(pods := seq(|w.pods|, i requires 0 <= i < |w.pods| => Settle(w.pods[i])))
  }

  /** Exactly these pods are removed, and the next check finds them on their way out. */
  ghost function Taken(w: World, sel: set<int>): World {
    AsLeft(Without(w, sel))
  }

  lemma TakenShape(w: World, sel: set<int>)
    ensures var v := Taken(w, sel); v.env == w.env && v.dc == w.dc && |v.pods| == |w.pods|
  {
  }

  lemma TakenPod(w: World, sel: set<int>, i: int)
    requires 0 <= i < |w.pods|
    ensures |Taken(w, sel).pods| == |w.pods|
    ensures Taken(w, sel).pods[i] == w.pods[i].(removed := false, info := w.pods[i].info.(
                                       terminating := w.pods[i].info.terminating || w.pods[i].removed || i in sel))
  {
    assert Taken(w, sel).pods[i] == Settle(Without(w, sel).pods[i]);
  }

  lemma AsLeftIsNext(w: World)
    ensures NextRound(w, AsLeft(w), seq(|w.pods|, i => i))
  {
  }

  lemma TakenIsRound(w: World, sel: set<int>)
    requires MayRemoveReady(w) && NextVictims(w, sel)
    ensures Round(w, Taken(w, sel))
  {
    hide EmmSpec, MayRemoveReady, NextRound, AsLeft, Without, NextVictims;
    RemovesNext(w, sel);
    AsLeftIsNext(Without(w, sel));
  }

  lemma TakenAreOut(w: World, sel: set<int>, i: int)
    requires OutWith(w, sel, i)
    ensures Out(Taken(w, sel), i) && Taken(w, sel).pods[i].info.rack == w.pods[i].info.rack
    ensures i in sel || w.pods[i].info.terminating ==> Taken(w, sel).pods[i].info.terminating
  {
    hide Taken;
    TakenShape(w, sel);
    TakenPod(w, sel, i);
  }

  lemma TakenBreaks(w: World, sel: set<int>)
    requires MayRemoveReady(w) && NextVictims(w, sel) && !OneRackWith(w, sel)
    ensures Round(w, Taken(w, sel)) && !OutInOneRack(Taken(w, sel))
  {
    hide MayRemoveReady, NextVictims, Taken, Round;
    TakenIsRound(w, sel);
    var i, j :| OutWith(w, sel, i) && OutWith(w, sel, j) && w.pods[i].info.rack != w.pods[j].info.rack;
    TakenAreOut(w, sel, i);
    TakenAreOut(w, sel, j);
  }

  /** With the pods that are out in one rack, whatever the check does and whatever happens next leaves
      them so, if and only if the pods the check may remove share a rack with them. */
  lemma RoundExact(w: World)
    requires OutInOneRack(w) && NoneRemoved(w)
    ensures (forall v :: Round(w, v) ==> OutInOneRack(v)) <==> (MayRemoveReady(w) ==> VictimsShareRack(w))
  {
    hide Round, OutInOneRack, OneRackWith, MayRemoveReady, TaintedWith, Taken;
    if MayRemoveReady(w) ==> VictimsShareRack(w) {
      forall v | Round(w, v) ensures OutInOneRack(v) {
        RoundKeepsOneRack(w, v);
      }
    } else {
      var sel :| NextVictims(w, sel) && !OneRackWith(w, sel) by {
        UnsafeVictims(w);
      }
      TakenBreaks(w, sel);
    }
  }

  lemma UnsafeVictims(w: World)
    requires !VictimsShareRack(w)
    ensures exists sel :: NextVictims(w, sel) && !OneRackWith(w, sel)
  {
    hide OneRackWith, TaintedWith;
    if Hosts(w, Evacuating(w)) {
      var k :| On(w, k, Evacuating(w)) && !OneRackWith(w, {k});
      assert NextVictims(w, {k});
    } else {
      var n :| n in GoingDown(w) && Hosts(w, {n}) && !OneRackWith(w, PodsOn(w, {n}));
      assert NextVictims(w, PodsOn(w, {n}));
    }
  }

  // ----- Racks going down one after the other -----

  lemma TakenSame(w: World, sel: set<int>)
    ensures SameToDrains(w, Taken(w, sel))
  {
    hide Taken;
    var v := Taken(w, sel);
    TakenShape(w, sel);
    forall i | 0 <= i < |w.pods|
      ensures v.pods[i] == w.pods[i].(removed := v.pods[i].removed,
                                      info := w.pods[i].info.(terminating := v.pods[i].info.terminating))
    {
      TakenPod(w, sel, i);
    }
  }

  /** Two nodes are going down, with bootstrapped pods of different racks. The check takes the
      first one's pods; while those still report ready, the next check takes the second one's, and
      two racks are out. */
  lemma TwoRacksInTwoRounds(w: World, s: string, n: string, i: int, j: int)
    requires MayRemoveReady(w) && !Hosts(w, Evacuating(w)) && s in GoingDown(w) && n in GoingDown(w)
    requires On(w, i, {s}) && On(w, j, {n}) && w.pods[i].info.rack != w.pods[j].info.rack
    requires Bootstrapped(w.pods[i], w.dc.hostIds) && Bootstrapped(w.pods[j], w.dc.hostIds)
    ensures var v := Taken(w, PodsOn(w, {s})); var u := Taken(v, PodsOn(v, {n}));
            Round(w, v) && Round(v, u) && !OutInOneRack(u)
  {
    hide MayRemoveReady, TaintedWith, Taken, Round;
    var first := PodsOn(w, {s});
    assert NextVictims(w, first);
    TakenIsRound(w, first);
    TakenSame(w, first);
    TakenAreOut(w, first, i);
    var v := Taken(w, first);
    SameNodes(w, v);
    SameCounts(w, v);
    MayStillRemove(w, v);
    SameHosts(w, v, Evacuating(w));
    assert On(v, j, {n});
    var second := PodsOn(v, {n});
    assert NextVictims(v, second) && j in second;
    assert OutWith(v, second, i) && OutWith(v, second, j);
    TakenBreaks(v, second);
  }
}
