/** The objects a pass holds in memory. The datacenter's pod list shares its pods with the
    cluster's pod list, so a label written through one is seen through the other. */
module Cluster {
  import opened Conditions
  import opened Lists
  import opened Model

  class Pod {
    const info: PodInfo
    var state: NodeState
    var seed: bool
    var failure: Option<string>
    var removed: bool

    function View(): PodView
      reads this
    {
      PodView(info, state, seed, failure, removed)
    }
  }

  class StatefulSet {
    const rack: string
    const status: StsStatus
    var replicas: int
    var hash: int

    function View(): StsView
      reads this
    {
      StsView(rack, status, replicas, hash)
    }
  }

  class Datacenter {
    const spec: Spec
    var replaceNodes: seq<string>
    var restartRequested: bool
    var conditions: seq<Condition>
    var hostIds: map<string, string>
    var replacements: seq<string>
    var lastRestart: int
    var progress: Progress

    function View(): DcView
      reads this
    {
      DcView(spec, replaceNodes, restartRequested, conditions, hostIds, replacements, lastRestart, progress)
    }
  }

  /** One pass over one datacenter. */
  class Context {
    const env: Env
    const dc: Datacenter
    const clusterPods: seq<Pod>
    const dcPods: seq<Pod>
    const sts: seq<StatefulSet>
    ghost const at: seq<int>  // where each datacenter pod stands in the cluster list

    ghost predicate Valid() {
      && (forall i, j :: 0 <= i < j < |clusterPods| ==> clusterPods[i] != clusterPods[j])
      && (forall i, j :: 0 <= i < j < |clusterPods| ==> clusterPods[i].info.name != clusterPods[j].info.name)
      && ValidSublist(|clusterPods|)
      && (forall k, l :: 0 <= k < l < |sts| ==> sts[k] != sts[l])
      && dc.spec.racks != [] && NoDuplicates(dc.spec.racks) && "" !in dc.spec.racks
      && |sts| == |dc.spec.racks| == |dc.spec.hashes|
      && (forall k :: 0 <= k < |sts| ==> sts[k].rack == dc.spec.racks[k])
    }

    /** `dcPods` holds the datacenter's pods among the first `n` of the cluster, in order. */
    ghost predicate ValidSublist(n: nat) {
      && n <= |clusterPods| && |at| == |dcPods|
      && (forall k :: 0 <= k < |at| ==> 0 <= at[k] < n && clusterPods[at[k]] == dcPods[k] && dcPods[k].info.dc == dc.spec.name)
      && (forall k, l :: 0 <= k < l < |at| ==> at[k] < at[l])
      && (forall i :: 0 <= i < n && clusterPods[i].info.dc == dc.spec.name ==> i in at)
    }

    ghost function PodViews(): (s: seq<PodView>)
      reads clusterPods
      ensures |s| == |clusterPods|
      ensures forall i :: 0 <= i < |s| ==> s[i] == clusterPods[i].View()
    {
      seq(|clusterPods|, i requires 0 <= i < |clusterPods| reads clusterPods => clusterPods[i].View())
    }

    ghost function StsViews(): (s: seq<StsView>)
      reads sts
      ensures |s| == |sts|
      ensures forall k :: 0 <= k < |s| ==> s[k] == sts[k].View()
    {
      seq(|sts|, k requires 0 <= k < |sts| reads sts => sts[k].View())
    }

    ghost function View(): World
      reads dc, clusterPods, sts
    {
      World(env, PodViews(), StsViews(), dc.View())
    }

    /** Picks the datacenter's pods out of the cluster's, keeping their order. */
    constructor (env: Env, dc: Datacenter, clusterPods: seq<Pod>, sts: seq<StatefulSet>)
      requires forall i, j :: 0 <= i < j < |clusterPods| ==>
                 clusterPods[i] != clusterPods[j] && clusterPods[i].info.name != clusterPods[j].info.name
      requires forall k, l :: 0 <= k < l < |sts| ==> sts[k] != sts[l]
      requires dc.spec.racks != [] && NoDuplicates(dc.spec.racks) && "" !in dc.spec.racks
      requires |sts| == |dc.spec.racks| == |dc.spec.hashes|
      requires forall k :: 0 <= k < |sts| ==> sts[k].rack == dc.spec.racks[k]
      ensures Valid()
      ensures this.env == env && this.dc == dc && this.clusterPods == clusterPods && this.sts == sts
    {
      this.env := env;
      this.dc := dc;
      this.clusterPods := clusterPods;
      this.sts := sts;
      var filtered: seq<Pod> := [];
      ghost var places: seq<int> := [];
      for i := 0 to |clusterPods|
        invariant |places| == |filtered|
        invariant forall k :: 0 <= k < |places| ==> 0 <= places[k] < i && clusterPods[places[k]] == filtered[k] && filtered[k].info.dc == dc.spec.name
        invariant forall k, l :: 0 <= k < l < |places| ==> places[k] < places[l]
        invariant forall j :: 0 <= j < i && clusterPods[j].info.dc == dc.spec.name ==> j in places
      {
        if clusterPods[i].info.dc == dc.spec.name {
          filtered := filtered + [clusterPods[i]];
          places := places + [i];
        }
      }
      this.dcPods := filtered;
      this.at := places;
    }

    lemma ViewWellFormed()
      requires Valid()
      ensures WellFormed(View())
    {
    }

    // ----- Reading -----

    /** Walks the datacenter's pods up to the first that satisfies `p`. */
    method FindDc(p: PodView -> bool) returns (k: nat)
      requires Valid()
      ensures k <= |dcPods|
      ensures k < |dcPods| ==> FirstDc(View(), at[k], p)
      ensures k == |dcPods| ==> NoDc(View(), p)
    {
      k := 0;
      while k < |dcPods| && !p(dcPods[k].View())
        invariant k <= |dcPods|
        invariant forall l :: 0 <= l < k ==> !p(dcPods[l].View())
      {
        k := k + 1;
      }
      ghost var w := View();
      ghost var end := if k < |dcPods| then at[k] else |clusterPods|;
      forall j | 0 <= j < end && InDc(w, j)
        ensures !p(w.pods[j])
      {
        var l :| 0 <= l < |at| && at[l] == j;
        assert l < k;
      }
    }

    // ----- Calls and writes -----

    method Call() returns (ok: bool)
      ensures env.apiUp ==> ok
    {
      if env.apiUp {
        ok := true;
      } else {
        ok := *;
      }
    }

    method PatchState(p: Pod, ghost i: int, s: NodeState) returns (ok: bool)
      requires Valid() && 0 <= i < |clusterPods| && clusterPods[i] == p
      modifies p
      ensures env.apiUp ==> ok
      ensures View() == if ok then SetState(old(View()), i, s) else old(View())
    {
      ok := Call();
      if ok {
        p.state := s;
      }
    }

    method PatchSeed(p: Pod, ghost i: int, b: bool) returns (ok: bool)
      requires Valid() && 0 <= i < |clusterPods| && clusterPods[i] == p
      modifies p
      ensures env.apiUp ==> ok
      ensures View() == if ok then SetSeed(old(View()), i, b) else old(View())
    {
      ok := Call();
      if ok {
        p.seed := b;
      }
    }

    method DeletePod(p: Pod, ghost i: int) returns (ok: bool)
      requires Valid() && 0 <= i < |clusterPods| && clusterPods[i] == p
      modifies p
      ensures env.apiUp ==> ok
      ensures View() == if ok then RemovePod(old(View()), i) else old(View())
    {
      ok := Call();
      if ok {
        p.removed := true;
      }
    }

    method PatchConditions(cs: seq<Condition>) returns (ok: bool)
      modifies dc
      ensures env.apiUp ==> ok
      ensures View() == if ok then SetConditions(old(View()), cs) else old(View())
    {
      ok := Call();
      if ok {
        dc.conditions := cs;
      }
    }

    /** Sets one condition, talking to the API server only if its status changes. */
    method SetConditionStatus(k: ConditionType, s: ConditionStatus) returns (ok: bool)
      modifies dc
      ensures env.apiUp ==> ok
      ensures View() == if ok then Setting(old(View()), k, s) else old(View())
    {
      var cs, changed := SetStatus(dc.conditions, k, s, env.now);
      if !changed {
        return true;
      }
      ok := PatchConditions(cs);
    }

    method SetOperatorProgress(p: Progress) returns (ok: bool)
      modifies dc
      ensures env.apiUp ==> ok
      ensures View() == if ok then SetProgress(old(View()), p) else old(View())
    {
      if dc.progress == p {
        return true;
      }
      ok := Call();
      if ok {
        dc.progress := p;
      }
    }

    /** Marks the datacenter as updating, then patches the StatefulSet. */
    method UpdateRackNodeCount(k: nat, n: int) returns (ok: bool)
      requires Valid() && k < |sts|
      modifies dc, sts[k]
      ensures env.apiUp ==> ok
      ensures ok ==> View() == SetReplicas(SetProgress(old(View()), ProgressUpdating), k, n)
      ensures !ok ==> View() == old(View()) || View() == SetProgress(old(View()), ProgressUpdating)
    {
      ok := SetOperatorProgress(ProgressUpdating);
      if !ok {
        return;
      }
      ok := Call();
      if ok {
        sts[k].replicas := n;
      }
    }
  }
}
