/** Keeping the datacenter's status: host IDs and node replacements. */
module Status {
  import opened Conditions
  import opened Lists
  import opened Model
  import opened Specs
  import opened Cluster

  method FixMissingPvc(rc: Context) returns (r: Result)
    requires rc.Valid()
    modifies rc.clusterPods
    ensures MissingPvcSpec(old(rc.View()), rc.View(), r)
  {
    for k := 0 to |rc.dcPods|
      invariant rc.View() == old(rc.View())
      invariant Fails(rc.View()) || forall l :: 0 <= l < k ==> !LacksPvc(rc.dcPods[l].View())
    {
      var stuck := IsNodeStuckWithoutPvc(rc, rc.dcPods[k]);
      if stuck {
        ghost var w := rc.View();
        if rc.env.apiUp {
          FirstWithoutPvc(rc, k);
        }
        assert FoundWithoutPvc(w, rc.at[k]);
        var ok := rc.DeletePod(rc.dcPods[k], rc.at[k]);
        return if ok then Requeue else Error;
      }
    }
    if rc.env.apiUp {
      FirstWithoutPvc(rc, |rc.dcPods|);
    }
    r := Continue;
  }

  method IsNodeStuckWithoutPvc(rc: Context, p: Pod) returns (stuck: bool)
    ensures stuck ==> LacksPvc(p.View())
    ensures rc.env.apiUp && LacksPvc(p.View()) ==> stuck
  {
    stuck := false;
    if p.info.pending {
      var answered := rc.Call();
      stuck := answered && !p.info.hasPvc;
    }
  }

  /** The pods that come before the datacenter's `k`-th one in the cluster are its first `k`. */
  lemma FirstWithoutPvc(rc: Context, k: nat)
    requires rc.Valid() && k <= |rc.dcPods| && forall l :: 0 <= l < k ==> !LacksPvc(rc.dcPods[l].View())
    ensures k == |rc.dcPods| ==> NoDc(rc.View(), LacksPvc)
    ensures k < |rc.dcPods| && LacksPvc(rc.dcPods[k].View()) ==> FirstDc(rc.View(), rc.at[k], LacksPvc)
  {
    var w := rc.View();
    var end := if k < |rc.dcPods| then rc.at[k] else |rc.clusterPods|;
    forall j | 0 <= j < end && InDc(w, j) ensures !LacksPvc(w.pods[j]) {
      var l :| 0 <= l < |rc.at| && rc.at[l] == j;
      assert l < k;
    }
  }

  /** Asks for the host ID of every pod that has none yet and whose management API runs. */
  method UpdateCassandraNodeStatus(rc: Context) returns (hostIds: map<string, string>)
    requires rc.Valid()
    ensures HostIdsRefreshed(rc.View(), hostIds)
  {
    hostIds := rc.dc.hostIds;
    for k := 0 to |rc.dcPods|
      invariant forall n :: n in rc.dc.hostIds ==> n in hostIds
      invariant forall l :: 0 <= l < k ==> rc.dcPods[l].info.name in hostIds
      invariant forall n :: n in hostIds ==> n in rc.dc.hostIds || exists l :: 0 <= l < k && rc.dcPods[l].info.name == n
      invariant forall n :: n in hostIds && hostIds[n] != HostId(rc.dc.hostIds, n) ==>
                  HostId(rc.dc.hostIds, n) == "" && exists l :: 0 <= l < k && Asked(rc.dcPods[l], n)
    {
      var pod := rc.dcPods[k];
      var known := HostId(hostIds, pod.info.name);
      if pod.info.ip != "" && pod.info.mgmtUp && known == "" {
        var answer: string := *;
        known := answer;
        assert Asked(rc.dcPods[k], pod.info.name);
      }
      hostIds := hostIds[pod.info.name := known];
    }
    InListOrWorld(rc, hostIds);
  }

  ghost predicate Asked(p: Pod, n: string) {
    p.info.name == n && p.info.mgmtUp && p.info.ip != ""
  }

  lemma InListOrWorld(rc: Context, hostIds: map<string, string>)
    requires rc.Valid()
    requires forall n :: n in rc.dc.hostIds ==> n in hostIds
    requires forall l :: 0 <= l < |rc.dcPods| ==> rc.dcPods[l].info.name in hostIds
    requires forall n :: n in hostIds ==> n in rc.dc.hostIds || exists l :: 0 <= l < |rc.dcPods| && rc.dcPods[l].info.name == n
    requires forall n :: n in hostIds && hostIds[n] != HostId(rc.dc.hostIds, n) ==>
               HostId(rc.dc.hostIds, n) == "" && exists l :: 0 <= l < |rc.dcPods| && Asked(rc.dcPods[l], n)
    ensures HostIdsRefreshed(rc.View(), hostIds)
  {
    var w := rc.View();
    forall i | InDc(w, i) ensures w.pods[i].info.name in hostIds {
      var l :| 0 <= l < |rc.at| && rc.at[l] == i;
    }
    forall n | n in hostIds && n !in w.dc.hostIds ensures exists i :: InDc(w, i) && w.pods[i].info.name == n {
      var l :| 0 <= l < |rc.dcPods| && rc.dcPods[l].info.name == n;
      assert InDc(w, rc.at[l]);
    }
    forall n | n in hostIds && hostIds[n] != HostId(w.dc.hostIds, n)
      ensures exists i :: InDc(w, i) && w.pods[i].info.name == n && w.pods[i].info.mgmtUp && w.pods[i].info.ip != ""
    {
      var l :| 0 <= l < |rc.dcPods| && Asked(rc.dcPods[l], n);
      assert InDc(w, rc.at[l]);
    }
  }

  /** Drops every pending replacement whose pod came back. */
  method UpdateCurrentReplacePodsProgress(rc: Context) returns (left: seq<string>)
    requires rc.Valid()
    ensures left == RemoveEach(rc.dc.replacements, OverNames(rc.View()))
  {
    left := rc.dc.replacements;
    ghost var w := rc.View();
    ghost var names: set<string> := {};
    RemoveNone(left);
    for k := 0 to |rc.dcPods|
      invariant left == RemoveEach(rc.dc.replacements, names)
      invariant OverUpTo(rc, w, k, names)
    {
      var pod := rc.dcPods[k];
      var isReplacing := StatusOf(rc.dc.conditions, ReplacingNodes) == True;
      var since := SinceOf(rc.dc.conditions, ReplacingNodes);
      OverNext(rc, w, k, names);
      if pod.state == Started && isReplacing && (since < rc.env.now - 1800 || since <= pod.info.created) {
        assert ReplacementOver(w, rc.at[k]);
        RemoveOneMore(rc.dc.replacements, names, pod.info.name);
        if IndexOf(left, pod.info.name) > -1 {
          left := RemoveFirst(left, pod.info.name);
        }
        names := names + {pod.info.name};
      }
    }
    AllOver(rc, w, names);
  }

  ghost predicate OverAt(rc: Context, w: World, l: int, n: string) {
    0 <= l < |rc.dcPods| == |rc.at| && ReplacementOver(w, rc.at[l]) && w.pods[rc.at[l]].info.name == n
  }

  ghost predicate OverUpTo(rc: Context, w: World, k: int, names: set<string>) {
    forall n :: n in names <==> exists l :: 0 <= l < k && OverAt(rc, w, l, n)
  }

  lemma OverNext(rc: Context, w: World, k: nat, names: set<string>)
    requires rc.Valid() && w == rc.View() && k < |rc.dcPods| && OverUpTo(rc, w, k, names)
    ensures var n := rc.dcPods[k].info.name;
            if ReplacementOver(w, rc.at[k]) then n !in names && OverUpTo(rc, w, k + 1, names + {n})
            else OverUpTo(rc, w, k + 1, names)
  {
    var n := rc.dcPods[k].info.name;
    assert OverAt(rc, w, k, n) <==> ReplacementOver(w, rc.at[k]);
    forall l | 0 <= l < k ensures !OverAt(rc, w, l, n) {
      assert rc.at[l] < rc.at[k];
    }
    forall x | x in names ensures exists l :: 0 <= l < k + 1 && OverAt(rc, w, l, x) {
      var l :| 0 <= l < k && OverAt(rc, w, l, x);
    }
  }

  lemma AllOver(rc: Context, w: World, names: set<string>)
    requires rc.Valid() && w == rc.View() && OverUpTo(rc, w, |rc.dcPods|, names)
    ensures names == OverNames(w)
  {
    forall n | n in OverNames(w) ensures n in names {
      var i :| 0 <= i < |w.pods| && ReplacementOver(w, i) && w.pods[i].info.name == n;
      var l :| 0 <= l < |rc.at| && rc.at[l] == i;
      assert OverAt(rc, w, l, n);
    }
  }

  method UpdateStatus(rc: Context) returns (r: Result)
    requires rc.Valid()
    modifies rc.dc
    ensures UpdateStatusSpec(old(rc.View()), rc.View(), r)
  {
    var hostIds := UpdateCassandraNodeStatus(rc);
    var left := UpdateCurrentReplacePodsProgress(rc);
    r := PersistStatus(rc, hostIds, left);
  }

  /** Moves the requested replacements from the spec to the status. The spec is patched first. */
  method PersistStatus(rc: Context, hostIds: map<string, string>, left: seq<string>) returns (r: Result)
    modifies rc.dc
    ensures r == Continue || (r == Error && !rc.env.apiUp)
    ensures r == Continue ==> rc.View() == old(rc.View()).(dc := Recorded(old(rc.View()).dc, hostIds, left, rc.env.now))
    ensures r == Error ==> rc.View() == old(rc.View()) || rc.View() == old(rc.View()).(dc := old(rc.View()).dc.(replaceNodes := []))
  {
    var conditions := rc.dc.conditions;
    var replacements := left;
    AppendNone(left);
    if rc.dc.replaceNodes != [] {
      var changed;
      conditions, changed := SetStatus(conditions, ReplacingNodes, True, rc.env.now);
      replacements := AppendValuesToStringArrayIfNotPresent(left, rc.dc.replaceNodes);
      var ok := ClearReplaceNodes(rc);
      if !ok {
        return Error;
      }
    }
    r := PatchStatus(rc, hostIds, conditions, replacements);
  }

  lemma AppendNone(left: seq<string>)
    ensures AppendAbsent(left, []) == left
  {
  }

  method ClearReplaceNodes(rc: Context) returns (ok: bool)
    modifies rc.dc
    ensures rc.env.apiUp ==> ok
    ensures rc.View() == var w := old(rc.View()); if ok then w.(dc := w.dc.(replaceNodes := [])) else w
  {
    ok := rc.Call();
    if ok {
      rc.dc.replaceNodes := [];
    }
  }

  method PatchStatus(rc: Context, hostIds: map<string, string>, cs: seq<Condition>, replacements: seq<string>) returns (r: Result)
    modifies rc.dc
    ensures r == Continue || (r == Error && !rc.env.apiUp && rc.View() == old(rc.View()))
    ensures r == Continue ==> rc.View() == old(rc.View()).(dc := old(rc.View()).dc.(
                                hostIds := hostIds, conditions := cs, replacements := replacements))
  {
    if !(hostIds == rc.dc.hostIds && cs == rc.dc.conditions && replacements == rc.dc.replacements) {
      var ok := rc.Call();
      if !ok {
        return Error;
      }
    }
    rc.dc.hostIds, rc.dc.conditions, rc.dc.replacements := hostIds, cs, replacements;
    r := Continue;
  }

  method CheckCassandraNodeStatuses(rc: Context) returns (r: Result)
    requires rc.Valid()
    ensures NodeStatusesSpec(rc.View(), rc.View(), r)
  {
    var hostIds := rc.dc.hostIds;
    var k := rc.FindDc((p: PodView) => HostId(hostIds, p.info.name) == "");
    r := if k == |rc.dcPods| then Continue else Requeue;
  }
}
