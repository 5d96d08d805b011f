/** Bringing Cassandra up: noticing lost readiness, deleting stuck pods, labelling seeds and
    starting one node at a time. */
module Startup {
  import opened Racks
  import opened Names
  import opened Lists
  import opened Model
  import opened Specs
  import opened Cluster

  method FindStartedNotReadyNodes(rc: Context) returns (r: Result)
    requires rc.Valid()
    modifies rc.clusterPods
    ensures ReadinessSpec(old(rc.View()), rc.View(), r)
  {
    var k := rc.FindDc(ReadinessChanged);
    if k == |rc.dcPods| {
      return Continue;
    }
    var pod := rc.dcPods[k];
    if LostReadiness(pod.View()) {
      var ok := rc.PatchState(pod, rc.at[k], StartedNotReady);
      r := if ok then Requeue else Error;
    } else {
      var ok := rc.PatchState(pod, rc.at[k], Started);
      r := if ok then Continue else Error;
    }
  }

  method DeleteStuckNodes(rc: Context) returns (r: Result)
    requires rc.Valid()
    modifies rc.clusterPods
    ensures StuckSpec(old(rc.View()), rc.View(), r)
  {
    var k := rc.FindDc(IsStuck);
    if k == |rc.dcPods| {
      return Continue;
    }
    var pod := rc.dcPods[k];
    var ok := rc.DeletePod(pod, rc.at[k]);
    r := if ok then Done else Error;
  }

  // ----- Seeds -----

  /** `order` lists the datacenter's pods in `rack` by name. */
  ghost predicate NameOrder(w: World, rack: string, order: seq<int>) {
    && (forall l :: 0 <= l < |order| ==> InDc(w, order[l]) && w.pods[order[l]].info.rack == rack)
    && (forall i :: InDc(w, i) && w.pods[i].info.rack == rack ==> i in order)
    && (forall l, m :: 0 <= l < m < |order| ==> Less(w.pods[order[l]].info.name, w.pods[order[m]].info.name))
  }

  method PodsOfRack(rc: Context, rack: string) returns (s: seq<Pod>, ghost order: seq<int>)
    requires rc.Valid()
    ensures |order| == |s| && NameOrder(rc.View(), rack, order)
    ensures forall l :: 0 <= l < |s| ==> s[l] == rc.clusterPods[order[l]]
  {
    var filtered: seq<Pod> := [];
    ghost var places: seq<int> := [];
    for k := 0 to |rc.dcPods|
      invariant RackPods(rc, rack, filtered, places)
      invariant forall l :: 0 <= l < k && rc.dcPods[l].info.rack == rack ==> rc.at[l] in places
      invariant forall l :: 0 <= l < |places| && k < |rc.at| ==> places[l] < rc.at[k]
    {
      if rc.dcPods[k].info.rack == rack {
        filtered := filtered + [rc.dcPods[k]];
        places := places + [rc.at[k]];
      }
    }
    forall i | InDc(rc.View(), i) && rc.View().pods[i].info.rack == rack
      ensures i in places
    {
      var k :| 0 <= k < |rc.at| && rc.at[k] == i;
    }
    s, order := SortByName(rc, rack, filtered, places);
  }

  ghost predicate RackPods(rc: Context, rack: string, s: seq<Pod>, places: seq<int>) {
    && |s| == |places|
    && (forall l :: 0 <= l < |s| ==>
         && 0 <= places[l] < |rc.clusterPods| && s[l] == rc.clusterPods[places[l]]
         && s[l].info.dc == rc.dc.spec.name && s[l].info.rack == rack)
    && NoDuplicates(places)
  }

  ghost predicate SortedByName(s: seq<Pod>) {
    forall i, j :: 0 <= i < j < |s| ==> Less(s[i].info.name, s[j].info.name)
  }

  method SortByName(rc: Context, rack: string, pods: seq<Pod>, ghost places: seq<int>)
    returns (s: seq<Pod>, ghost order: seq<int>)
    requires rc.Valid() && RackPods(rc, rack, pods, places)
    ensures RackPods(rc, rack, s, order) && SortedByName(s)
    ensures forall i :: i in order <==> i in places
  {
    s, order := [], [];
    for n := 0 to |pods|
      invariant RackPods(rc, rack, s, order) && SortedByName(s)
      invariant forall i :: i in order <==> i in places[..n]
    {
      s, order := InsertByName(rc, rack, s, order, pods[n], places[n]);
    }
  }

  method InsertByName(rc: Context, rack: string, s: seq<Pod>, ghost order: seq<int>, p: Pod, ghost place: int)
    returns (t: seq<Pod>, ghost order': seq<int>)
    requires rc.Valid() && RackPods(rc, rack, s, order) && SortedByName(s)
    requires RackPods(rc, rack, [p], [place]) && place !in order
    ensures RackPods(rc, rack, t, order') && SortedByName(t)
    ensures forall i :: i in order' <==> i == place || i in order
  {
    var k := |s|;
    while k > 0 && Less(p.info.name, s[k - 1].info.name)
      invariant 0 <= k <= |s|
      invariant forall j :: k <= j < |s| ==> Less(p.info.name, s[j].info.name)
    {
      k := k - 1;
    }
    t := s[..k] + [p] + s[k..];
    order' := order[..k] + [place] + order[k..];
    assert [p][0] == p && [place][0] == place;
    InsertedOnce(order, k, place);
    if k > 0 {
      assert order[k - 1] != place;
      assert s[k - 1].info.name != p.info.name;
    }
    InsertionSorted(s, k, p);
  }

  lemma InsertedOnce(s: seq<int>, k: nat, x: int)
    requires k <= |s| && NoDuplicates(s) && x !in s
    ensures var t := s[..k] + [x] + s[k..]; NoDuplicates(t) && forall i :: i in t <==> i == x || i in s
  {
    assert s == s[..k] + s[k..];
  }

  lemma InsertionSorted(s: seq<Pod>, k: nat, p: Pod)
    requires SortedByName(s) && k <= |s|
    requires k > 0 ==> !Less(p.info.name, s[k - 1].info.name) && p.info.name != s[k - 1].info.name
    requires forall j :: k <= j < |s| ==> Less(p.info.name, s[j].info.name)
    ensures SortedByName(s[..k] + [p] + s[k..])
  {
    if k > 0 {
      LessTrichotomy(p.info.name, s[k - 1].info.name);
      forall i | 0 <= i < k ensures Less(s[i].info.name, p.info.name) {
        if i < k - 1 {
          LessTransitive(s[i].info.name, s[k - 1].info.name, p.info.name);
        }
      }
    }
  }

  /** `w` with the seed labels of the pods in `done` already settled. */
  ghost predicate PartlyReseeded(w: World, w': World, done: seq<int>) {
    && w' == w.(pods := w'.pods) && |w'.pods| == |w.pods|
    && forall i :: 0 <= i < |w.pods| ==> w'.pods[i] == if i in done then w.pods[i].(seed := SeedAfter(w, i)) else w.pods[i]
  }

  /** `count` seeds were found among the first `m` pods of the rack, of which `seen` are ready. */
  ghost predicate SeedCounted(w: World, order: seq<int>, m: nat, seedCount: int, count: nat, seen: set<int>)
    requires m <= |order|
  {
    && (forall i :: i in seen <==> i in order[..m] && 0 <= i < |w.pods| && w.pods[i].info.ready)
    && (count == if |seen| < seedCount then |seen| else Max(seedCount, 0))
  }

  /** In name order, the ready pods already passed are the ready pods before the current one. */
  lemma SeenAreBefore(w: World, rack: string, order: seq<int>, m: nat, seedCount: int, count: nat, seen: set<int>)
    requires NameOrder(w, rack, order) && m < |order|
    requires SeedCounted(w, order, m, seedCount, count, seen)
    ensures ReadyBefore(w, order[m]) == seen && order[m] !in seen
  {
    var i := order[m];
    forall j ensures j in ReadyBefore(w, i) <==> j in seen {
      if InDc(w, j) && w.pods[j].info.rack == rack {
        var l :| 0 <= l < |order| && order[l] == j;
        LessTrichotomy(w.pods[j].info.name, w.pods[i].info.name);
        if l < m {
          assert order[l] == order[..m][l];
        } else {
          assert j !in order[..m] by { NotEarlier(w, rack, order, l, m); }
        }
      }
    }
    NotEarlier(w, rack, order, m, m);
  }

  lemma NotEarlier(w: World, rack: string, order: seq<int>, l: nat, m: nat)
    requires NameOrder(w, rack, order) && m <= l < |order|
    ensures order[l] !in order[..m]
  {
    if order[l] in order[..m] {
      var k :| 0 <= k < m && order[..m][k] == order[l];
      LessTrichotomy(w.pods[order[k]].info.name, w.pods[order[l]].info.name);
    }
  }

  lemma SeedCountedStep(w: World, rack: string, order: seq<int>, m: nat, seedCount: int, n: nat, seen: set<int>)
    requires NameOrder(w, rack, order) && m < |order| && w.dc.spec.racks != []
    requires var k := IndexOf(w.dc.spec.racks, rack); k >= 0 && seedCount == SeedsInRack(w.dc.spec, k)
    requires SeedCounted(w, order, m, seedCount, n, seen)
    ensures var i := order[m]; var isSeed := w.pods[i].info.ready && n < seedCount;
            && isSeed == IsReadySeed(w, i)
            && SeedCounted(w, order, m + 1, seedCount, if isSeed then n + 1 else n,
                           if w.pods[i].info.ready then seen + {i} else seen)
  {
    SeenAreBefore(w, rack, order, m, seedCount, n, seen);
    SeedCountedNext(w, order, m, seedCount, n, seen, w.pods[order[m]].info.ready && n < seedCount);
  }

  lemma SeedCountedNext(w: World, order: seq<int>, m: nat, seedCount: int, n: nat, seen: set<int>, isSeed: bool)
    requires m < |order| && 0 <= order[m] < |w.pods| && order[m] !in seen
    requires SeedCounted(w, order, m, seedCount, n, seen)
    requires isSeed == (w.pods[order[m]].info.ready && n < seedCount)
    ensures SeedCounted(w, order, m + 1, seedCount, if isSeed then n + 1 else n,
                        if w.pods[order[m]].info.ready then seen + {order[m]} else seen)
  {
    var i := order[m];
    assert order[..m + 1] == order[..m] + [i];
    assert |seen + {i}| == |seen| + 1;
  }

  /** Labels the first ready pods of a rack by name as its seeds and takes the label off the
      others, except from a pod that is still starting. Returns the number of seeds found. */
  method LabelSeedPods(rc: Context, k: nat) returns (count: nat, ok: bool)
    requires rc.Valid() && k < |rc.dc.spec.racks|
    modifies rc.clusterPods
    ensures rc.env.apiUp ==> ok
    ensures ok ==> ReseededRack(old(rc.View()), rc.View(), rc.dc.spec.racks[k])
    ensures ok && SeedsInRack(rc.dc.spec, k) > 0 ==> (count > 0 <==> RackHasReady(old(rc.View()), rc.dc.spec.racks[k]))
    ensures !ok ==> PartReseeded(old(rc.View()), rc.View())
  {
    ghost var w := rc.View();
    var rack, seedCount := rc.dc.spec.racks[k], SeedsInRack(rc.dc.spec, k);
    RackIndex(rc.dc.spec.racks, k);
    ghost var order;
    var s;
    s, order := PodsOfRack(rc, rack);
    count := 0;
    ghost var seen: set<int> := {};
    for m := 0 to |s|
      invariant PartlyReseeded(w, rc.View(), order[..m])
      invariant SeedCounted(w, order, m, seedCount, count, seen)
    {
      var isSeed := s[m].info.ready && count < seedCount;
      SeedCountedStep(w, rack, order, m, seedCount, count, seen);
      ok := RelabelSeed(rc, s[m], isSeed, w, rack, order, m);
      if !ok {
        return;
      }
      count := if isSeed then count + 1 else count;
      seen := if s[m].info.ready then seen + {order[m]} else seen;
    }
    assert order[..|s|] == order;
    AnyReadyCounted(w, rack, order, seedCount, count, seen);
    ok := true;
  }

  lemma AnyReadyCounted(w: World, rack: string, order: seq<int>, seedCount: int, count: nat, seen: set<int>)
    requires NameOrder(w, rack, order)
    requires SeedCounted(w, order, |order|, seedCount, count, seen)
    ensures seedCount > 0 ==> (count > 0 <==> RackHasReady(w, rack))
  {
    assert order[..|order|] == order;
    if seedCount > 0 && RackHasReady(w, rack) {
      var i :| InDc(w, i) && w.pods[i].info.rack == rack && w.pods[i].info.ready;
      assert i in seen;
    }
    if !RackHasReady(w, rack) {
      forall i ensures i !in seen {
        assert i in order ==> InDc(w, i) && w.pods[i].info.rack == rack;
      }
      assert seen == {};
    }
  }

  method RelabelSeed(rc: Context, pod: Pod, isSeed: bool, ghost w: World, ghost rack: string, ghost order: seq<int>, ghost m: nat)
    returns (ok: bool)
    requires rc.Valid() && m < |order| && NameOrder(w, rack, order) && rack in w.dc.spec.racks
    requires |w.pods| == |rc.clusterPods| && rc.clusterPods[order[m]] == pod
    requires PartlyReseeded(w, rc.View(), order[..m])
    requires isSeed == IsReadySeed(w, order[m])
    modifies pod
    ensures rc.env.apiUp ==> ok
    ensures PartlyReseeded(w, rc.View(), if ok then order[..m + 1] else order[..m])
  {
    ghost var i := order[m];
    NotEarlier(w, rack, order, m, m);
    assert pod.View() == rc.View().pods[i] == w.pods[i];
    assert order[..m + 1] == order[..m] + [i];
    ok := true;
    if isSeed && !pod.seed {
      ok := rc.PatchSeed(pod, i, true);
    }
    if !isSeed && pod.seed && pod.state != Starting {
      ok := rc.PatchSeed(pod, i, false);
    }
  }

  lemma RackIndex(racks: seq<string>, k: nat)
    requires NoDuplicates(racks) && k < |racks|
    ensures IndexOf(racks, racks[k]) == k
  {
  }

  ghost predicate ReseededRack(w: World, w': World, rack: string) {
    && w' == w.(pods := w'.pods) && |w'.pods| == |w.pods|
    && forall i :: 0 <= i < |w.pods| ==>
         w'.pods[i] == if InDc(w, i) && w.pods[i].info.rack == rack then w.pods[i].(seed := SeedAfter(w, i)) else w.pods[i]
  }

  ghost predicate PartReseeded(w: World, w': World) {
    && w' == w.(pods := w'.pods) && |w'.pods| == |w.pods|
    && forall i :: 0 <= i < |w.pods| ==> w'.pods[i] == w.pods[i] || w'.pods[i] == w.pods[i].(seed := SeedAfter(w, i))
  }

  /** Every pod of racks before the `k`-th is settled, the others are untouched. */
  ghost predicate ReseededUpTo(w: World, w': World, k: int) {
    && 0 <= k <= |w.dc.spec.racks|
    && w' == w.(pods := w'.pods) && |w'.pods| == |w.pods|
    && forall i :: 0 <= i < |w.pods| ==>
         w'.pods[i] == if InDc(w, i) && w.pods[i].info.rack in w.dc.spec.racks[..k]
                       then w.pods[i].(seed := SeedAfter(w, i)) else w.pods[i]
  }

  lemma SeedAfterStable(w: World, w': World, i: int)
    requires w' == w.(pods := w'.pods) && |w'.pods| == |w.pods| && 0 <= i < |w.pods|
    requires forall j :: 0 <= j < |w.pods| ==> w'.pods[j].info == w.pods[j].info
    requires w'.pods[i] == w.pods[i]
    ensures SeedAfter(w', i) == SeedAfter(w, i)
  {
    assert ReadyBefore(w', i) == ReadyBefore(w, i);
  }

  lemma ReseededNext(w: World, a: World, b: World, k: int)
    requires 0 <= k < |w.dc.spec.racks| && NoDuplicates(w.dc.spec.racks)
    requires ReseededUpTo(w, a, k)
    ensures ReseededRack(a, b, w.dc.spec.racks[k]) ==> ReseededUpTo(w, b, k + 1)
    ensures PartReseeded(a, b) ==> PartReseeded(w, b)
  {
    var rack := w.dc.spec.racks[k];
    assert w.dc.spec.racks[..k + 1] == w.dc.spec.racks[..k] + [rack];
    assert rack !in w.dc.spec.racks[..k];
    forall i | 0 <= i < |w.pods| && a.pods[i] == w.pods[i] ensures SeedAfter(a, i) == SeedAfter(w, i) {
      SeedAfterStable(w, a, i);
    }
    forall i | 0 <= i < |w.pods| && a.pods[i] != w.pods[i]
      ensures a.pods[i].(seed := SeedAfter(a, i)) == a.pods[i]
    {
      assert ReadyBefore(a, i) == ReadyBefore(w, i);
      assert IsReadySeed(a, i) == IsReadySeed(w, i);
    }
  }

  lemma ReseededAll(w: World, w': World)
    requires ReseededUpTo(w, w', |w.dc.spec.racks|)
    ensures w' == Reseeded(w)
  {
    var racks := w.dc.spec.racks;
    assert racks[..|racks|] == racks;
    assert w'.pods == Reseeded(w).pods;
  }

  method LabelNextRack(rc: Context, k: nat, ghost w: World) returns (n: nat, ok: bool)
    requires rc.Valid() && k < |rc.dc.spec.racks| && SeedsInRack(rc.dc.spec, k) > 0
    requires w.dc.spec == rc.dc.spec && ReseededUpTo(w, rc.View(), k)
    modifies rc.clusterPods
    ensures rc.env.apiUp ==> ok
    ensures ok ==> ReseededUpTo(w, rc.View(), k + 1) && (n > 0 <==> RackHasReady(w, rc.dc.spec.racks[k]))
    ensures !ok ==> PartReseeded(w, rc.View())
  {
    ghost var a := rc.View();
    n, ok := LabelSeedPods(rc, k);
    ReseededNext(w, a, rc.View(), k);
    SameReadyRacks(w, a, rc.dc.spec.racks[k]);
  }

  method CheckSeedLabels(rc: Context) returns (seedCount: nat, r: Result)
    requires rc.Valid() && !rc.dc.spec.stopped && |rc.dc.spec.racks| <= rc.dc.spec.size
    modifies rc.clusterPods
    ensures SeedLabelsSpec(old(rc.View()), rc.View(), r)
    ensures r == Continue ==> (seedCount > 0 <==> HasReadySeed(old(rc.View())))
  {
    ghost var w := rc.View();
    seedCount := 0;
    for k := 0 to |rc.dc.spec.racks|
      invariant ReseededUpTo(w, rc.View(), k)
      invariant seedCount > 0 <==> exists l :: 0 <= l < k && RackHasReady(w, w.dc.spec.racks[l])
    {
      EveryRackSeeds(rc.dc.spec, k);
      var n, ok := LabelNextRack(rc, k, w);
      if !ok {
        return seedCount, Error;
      }
      seedCount := seedCount + n;
    }
    SeedsExistWhereReady(w);
    ReseededAll(w, rc.View());
    r := Continue;
  }

  /** While a datacenter runs, every rack is to have a seed. */
  lemma EveryRackSeeds(spec: Spec, k: nat)
    requires k < |spec.racks| <= spec.size && !spec.stopped && NoDuplicates(spec.racks)
    ensures SeedsInRack(spec, k) > 0
  {
    SeedAllocation(spec.racks, spec.size);
    assert RackInfos(spec.racks, spec.size, false)[k].seedCount == SeedsInRack(spec, k);
  }

  lemma SameReadyRacks(w: World, a: World, rack: string)
    requires a == w.(pods := a.pods) && |a.pods| == |w.pods|
    requires forall j :: 0 <= j < |w.pods| ==> a.pods[j].info == w.pods[j].info
    ensures RackHasReady(a, rack) == RackHasReady(w, rack)
  {
    if i :| InDc(w, i) && w.pods[i].info.rack == rack && w.pods[i].info.ready {
      assert InDc(a, i);
    }
    if i :| InDc(a, i) && a.pods[i].info.rack == rack && a.pods[i].info.ready {
      assert InDc(w, i);
    }
  }

  /** While a datacenter runs, it has a ready seed exactly when some rack has a ready pod. */
  lemma SeedsExistWhereReady(w: World)
    requires w.dc.spec.racks != [] && NoDuplicates(w.dc.spec.racks)
    requires !w.dc.spec.stopped && |w.dc.spec.racks| <= w.dc.spec.size
    ensures HasReadySeed(w) <==> exists k :: 0 <= k < |w.dc.spec.racks| && RackHasReady(w, w.dc.spec.racks[k])
  {
    var racks := w.dc.spec.racks;
    if i :| IsReadySeed(w, i) {
      var k := IndexOf(racks, w.pods[i].info.rack);
      assert RackHasReady(w, racks[k]);
    }
    if k :| 0 <= k < |racks| && RackHasReady(w, racks[k]) {
      var i :| InDc(w, i) && w.pods[i].info.rack == racks[k] && w.pods[i].info.ready;
      RackIndex(racks, k);
      EveryRackSeeds(w.dc.spec, k);
      ReadyRackHasSeed(w, i);
    }
  }

  /** Asks every started node of the cluster to reload its seeds. */
  method RefreshSeeds(rc: Context) returns (r: Result)
    ensures ExternalSpec(rc.View(), rc.View(), r)
  {
    for i := 0 to |rc.clusterPods| {
      if rc.clusterPods[i].state == Started {
        var ok := rc.Call();
        if !ok {
          return Error;
        }
      }
    }
    r := Continue;
  }

  // ----- Starting -----

  method FindStartingNodes(rc: Context) returns (r: Result)
    requires rc.Valid()
    modifies rc.clusterPods
    ensures StartingNodesSpec(old(rc.View()), rc.View(), r)
  {
    for i := 0 to |rc.clusterPods|
      invariant rc.View() == old(rc.View())
      invariant forall j :: 0 <= j < i ==> rc.clusterPods[j].state != Starting
    {
      var pod := rc.clusterPods[i];
      if pod.state == Starting {
        assert FirstStarting(rc.View(), i);
        if pod.info.ready {
          var ok := rc.PatchState(pod, i, Started);
          r := if ok then Continue else Error;
        } else {
          r := Requeue;
        }
        return;
      }
    }
    r := Continue;
  }

  method StartCassandra(rc: Context, pod: Pod, ghost i: int) returns (ok: bool)
    requires rc.Valid() && 0 <= i < |rc.clusterPods| && rc.clusterPods[i] == pod
    modifies pod
    ensures StartSpec(old(rc.View()), rc.View(), i, false, if ok then Requeue else Error)
    ensures rc.env.apiUp && !StartBlocked(old(rc.View()), old(pod.View())) ==> ok
  {
    var shouldReplacePod := IndexOf(rc.dc.replacements, pod.info.name) > -1;
    if shouldReplacePod {
      var hostId := HostId(rc.dc.hostIds, pod.info.name);
      if hostId != "" {
        var replaceAddress := FindIpForHostId(rc.env.endpoints, hostId);
        if replaceAddress.None? {
          assert rc.env.endpoints == [] by { AddressKnown(rc.env.endpoints, hostId); }
          return false;
        }
      }
    }
    ok := rc.Call();
    if !ok {
      return;
    }
    ok := rc.PatchState(pod, i, Starting);
    if !ok {
      return;
    }
    ok := rc.Call();
  }

  lemma {:induction false} AddressKnown(endpoints: seq<Endpoint>, hostId: string)
    ensures FindIpForHostId(endpoints, hostId).None? <==> endpoints == []
  {
    if |endpoints| > 1 {
      AddressKnown(endpoints[1..], hostId);
    }
  }

  method FindStartable(rc: Context, rack: string) returns (k: nat)
    requires rc.Valid()
    ensures k <= |rc.dcPods|
    ensures k < |rc.dcPods| ==> Startable(rc.dcPods[k].View()) && rc.dcPods[k].info.rack == rack && FirstOfRack(rc.View(), rc.at[k])
    ensures k == |rc.dcPods| ==> forall i :: InDc(rc.View(), i) && Startable(rc.View().pods[i]) ==> rc.View().pods[i].info.rack != rack
  {
    k := rc.FindDc((p: PodView) => Startable(p) && p.info.rack == rack);
  }

  /** The ready pods per rack, counting also racks that are not in the spec any more. */
  method CountReadyPerRack(rc: Context) returns (ready: map<string, int>)
    requires rc.Valid()
    ensures forall k :: 0 <= k < |rc.dc.spec.racks| ==> rc.dc.spec.racks[k] in ready
    ensures forall rack :: rack in ready ==> (ready[rack] > 0 <==> RackHasReady(rc.View(), rack))
    ensures forall rack :: rack in ready && rack !in rc.dc.spec.racks ==> ready[rack] > 0
  {
    ready := map[];
    for k := 0 to |rc.dc.spec.racks|
      invariant forall rack :: rack in ready <==> rack in rc.dc.spec.racks[..k]
      invariant forall rack :: rack in ready ==> ready[rack] == 0
    {
      ready := ready[rc.dc.spec.racks[k] := 0];
    }
    for k := 0 to |rc.dcPods|
      invariant ReadyCounted(ready, rc.dc.spec.racks, rc.dcPods[..k])
    {
      ReadyCountedNext(ready, rc.dc.spec.racks, rc.dcPods, k);
      if rc.dcPods[k].info.ready {
        ready := OneMoreReady(ready, rc.dcPods[k].info.rack);
      }
    }
    assert rc.dcPods[..|rc.dcPods|] == rc.dcPods;
    forall rack | rack in ready ensures ready[rack] > 0 <==> RackHasReady(rc.View(), rack) {
      ReadyInList(rc, rack);
    }
  }

  function OneMoreReady(ready: map<string, int>, rack: string): map<string, int> {
    ready[rack := (if rack in ready then ready[rack] else 0) + 1]
  }

  ghost predicate ReadyCounted(ready: map<string, int>, racks: seq<string>, pods: seq<Pod>) {
    && (forall l :: 0 <= l < |racks| ==> racks[l] in ready)
    && (forall rack :: rack in ready ==> ready[rack] >= 0 && (rack in racks || ready[rack] > 0))
    && (forall rack :: (rack in ready && ready[rack] > 0) <==> ReadyAmong(pods, rack))
  }

  lemma ReadyCountedNext(ready: map<string, int>, racks: seq<string>, pods: seq<Pod>, k: nat)
    requires k < |pods| && ReadyCounted(ready, racks, pods[..k])
    ensures ReadyCounted(if pods[k].info.ready then OneMoreReady(ready, pods[k].info.rack) else ready, racks, pods[..k + 1])
  {
    ReadyAmongNext(pods, k);
  }

  ghost predicate ReadyAmong(pods: seq<Pod>, rack: string) {
    exists l :: 0 <= l < |pods| && pods[l].info.rack == rack && pods[l].info.ready
  }

  lemma ReadyAmongNext(pods: seq<Pod>, k: nat)
    requires k < |pods|
    ensures forall rack :: ReadyAmong(pods[..k + 1], rack)
                           <==> ReadyAmong(pods[..k], rack) || (pods[k].info.rack == rack && pods[k].info.ready)
  {
    assert pods[..k + 1] == pods[..k] + [pods[k]];
    forall rack | ReadyAmong(pods[..k], rack) ensures ReadyAmong(pods[..k + 1], rack) {
      var l :| 0 <= l < k && pods[..k][l].info.rack == rack && pods[..k][l].info.ready;
      assert pods[..k + 1][l].info.rack == rack;
    }
    assert pods[..k + 1][k] == pods[k];
  }

  lemma ReadyInList(rc: Context, rack: string)
    requires rc.Valid()
    ensures RackHasReady(rc.View(), rack) <==> ReadyAmong(rc.dcPods, rack)
  {
    if l :| 0 <= l < |rc.dcPods| && rc.dcPods[l].info.rack == rack && rc.dcPods[l].info.ready {
      assert InDc(rc.View(), rc.at[l]);
    }
    if i :| InDc(rc.View(), i) && rc.View().pods[i].info.rack == rack && rc.View().pods[i].info.ready {
      var l :| 0 <= l < |rc.at| && rc.at[l] == i;
    }
  }

  /** Starts a node in some rack that has none ready. Go visits the racks in no particular
      order. Returns the rack it started in or is waiting for, or the empty string. */
  method StartOneNodePerRack(rc: Context, readySeeds: nat) returns (rackName: string, ok: bool)
    requires rc.Valid() && (readySeeds > 0 <==> HasReadySeed(rc.View()))
    modifies rc.clusterPods
    ensures OnePerRackSpec(old(rc.View()), rc.View(), if !ok then Error else if rackName != "" then Requeue else Continue)
  {
    ghost var w := rc.View();
    var ready := CountReadyPerRack(rc);
    var labelSeedBeforeStart := readySeeds == 0 && rc.dc.spec.additionalSeeds == 0;
    rackName := "";
    assert labelSeedBeforeStart == MustSeed(w);
    var todo := ready.Keys;
    while todo != {}
      invariant todo <= ready.Keys && rc.View() == w
      invariant rackName != "" <==> exists rack :: rack in ready && rack !in todo && ready[rack] <= 0
      invariant forall i :: Opens(w, i) ==> w.pods[i].info.rack in todo
      decreases |todo|
    {
      var rack :| rack in todo;
      todo := todo - {rack};
      if ready[rack] <= 0 {
        rackName := rack;
        var found;
        found, ok := StartInRack(rc, rack, labelSeedBeforeStart);
        if found {
          return;
        }
      }
    }
    NoneOpens(w, ready, rackName != "");
    ok := true;
  }

  lemma NoneOpens(w: World, ready: map<string, int>, waiting: bool)
    requires forall k :: 0 <= k < |w.dc.spec.racks| ==> w.dc.spec.racks[k] in ready
    requires forall rack :: rack in ready ==> (ready[rack] > 0 <==> RackHasReady(w, rack))
    requires forall rack :: rack in ready && rack !in w.dc.spec.racks ==> ready[rack] > 0
    requires forall i :: !Opens(w, i)
    requires waiting <==> exists rack :: rack in ready && ready[rack] <= 0
    ensures OnePerRackSpec(w, w, if waiting then Requeue else Continue)
  {
    if waiting {
      var rack :| rack in ready && ready[rack] <= 0;
      var k :| 0 <= k < |w.dc.spec.racks| && w.dc.spec.racks[k] == rack;
      assert !RackHasReady(w, w.dc.spec.racks[k]);
    }
  }

  method StartInRack(rc: Context, rack: string, asSeed: bool) returns (found: bool, ok: bool)
    requires rc.Valid() && rack in rc.dc.spec.racks && !RackHasReady(rc.View(), rack)
    modifies rc.clusterPods
    ensures found ==> exists i :: Opens(old(rc.View()), i) && FirstOfRack(old(rc.View()), i)
                        && StartSpec(old(rc.View()), rc.View(), i, asSeed, if ok then Requeue else Error)
    ensures !found ==> rc.View() == old(rc.View()) && forall i :: Opens(rc.View(), i) ==> rc.View().pods[i].info.rack != rack
  {
    var k := FindStartable(rc, rack);
    if k == |rc.dcPods| {
      return false, true;
    }
    assert Opens(rc.View(), rc.at[k]);
    ok := StartLabelled(rc, rc.dcPods[k], rc.at[k], asSeed);
    found := true;
  }

  method StartLabelled(rc: Context, pod: Pod, ghost i: int, asSeed: bool) returns (ok: bool)
    requires rc.Valid() && 0 <= i < |rc.clusterPods| && rc.clusterPods[i] == pod
    modifies pod
    ensures StartSpec(old(rc.View()), rc.View(), i, asSeed, if ok then Requeue else Error)
  {
    if asSeed {
      ok := rc.PatchSeed(pod, i, true);
      if !ok {
        return;
      }
    }
    ok := StartCassandra(rc, pod, i);
  }

  method StartAllNodes(rc: Context) returns (needsMore: bool, ok: bool)
    requires rc.Valid()
    modifies rc.clusterPods
    ensures AllNodesSpec(old(rc.View()), rc.View(), if !ok then Error else if needsMore then Requeue else Continue)
  {
    var k := rc.FindDc(NeedsStart);
    if k < |rc.dcPods| {
      ok := StartCassandra(rc, rc.dcPods[k], rc.at[k]);
      return true, ok;
    }
    k := rc.FindDc(MgmtDown);
    return k < |rc.dcPods|, true;
  }

  // ----- Counting -----

  lemma {:induction false} CountGap(pods: seq<PodView>, dc: string, p: PodView -> bool, a: nat, b: nat)
    requires a <= b <= |pods|
    requires forall i :: a <= i < b ==> pods[i].info.dc != dc
    ensures CountIn(pods[..b], dc, p) == CountIn(pods[..a], dc, p)
  {
    if a < b {
      assert pods[..b][..b - 1] == pods[..b - 1];
      CountGap(pods, dc, p, a, b - 1);
    }
  }

  /** The list position reached after the first `k` datacenter pods. */
  ghost function Reached(rc: Context, k: nat): nat
    requires rc.Valid() && k <= |rc.dcPods|
  {
    if k == 0 then 0 else rc.at[k - 1] + 1
  }

  lemma CountStart(rc: Context, p: PodView -> bool)
    requires rc.Valid()
    ensures CountIn(rc.PodViews()[..Reached(rc, 0)], rc.dc.spec.name, p) == 0
  {
  }

  lemma CountNext(rc: Context, k: nat, p: PodView -> bool)
    requires rc.Valid() && k < |rc.dcPods|
    ensures var pods := rc.PodViews(); var dc := rc.dc.spec.name;
            CountIn(pods[..Reached(rc, k + 1)], dc, p)
            == CountIn(pods[..Reached(rc, k)], dc, p) + if p(rc.dcPods[k].View()) then 1 else 0
  {
    hide CountIn;
    NoneBetween(rc, k);
    CountOneMore(rc.PodViews(), rc.dc.spec.name, p, Reached(rc, k), rc.at[k]);
  }

  lemma CountOneMore(pods: seq<PodView>, dc: string, p: PodView -> bool, a: nat, b: nat)
    requires a <= b < |pods| && pods[b].info.dc == dc
    requires forall i :: a <= i < b ==> pods[i].info.dc != dc
    ensures CountIn(pods[..b + 1], dc, p) == CountIn(pods[..a], dc, p) + if p(pods[b]) then 1 else 0
  {
    CountGap(pods, dc, p, a, b);
    assert pods[..b + 1][..b] == pods[..b];
  }

  lemma NoneBetween(rc: Context, k: nat)
    requires rc.Valid() && k < |rc.dcPods|
    ensures Reached(rc, k) <= rc.at[k]
    ensures forall i :: Reached(rc, k) <= i < rc.at[k] ==> rc.clusterPods[i].info.dc != rc.dc.spec.name
  {
    forall i | Reached(rc, k) <= i < rc.at[k] ensures i !in rc.at {
    }
  }

  lemma CountEnd(rc: Context, p: PodView -> bool)
    requires rc.Valid()
    ensures CountIn(rc.PodViews()[..Reached(rc, |rc.dcPods|)], rc.dc.spec.name, p) == CountIn(rc.PodViews(), rc.dc.spec.name, p)
  {
    var pods, dc, a := rc.PodViews(), rc.dc.spec.name, Reached(rc, |rc.dcPods|);
    CountGap(pods, dc, p, a, |pods|);
    assert pods[..|pods|] == pods;
  }

  method CountReadyAndStarted(rc: Context) returns (ready: nat, started: nat)
    requires rc.Valid()
    ensures ready == CountDc(rc.View(), IsReady) && started == CountDc(rc.View(), IsStarted)
  {
    hide CountIn;
    ready, started := 0, 0;
    CountStart(rc, IsReady);
    CountStart(rc, IsStarted);
    for k := 0 to |rc.dcPods|
      invariant ready == CountIn(rc.PodViews()[..Reached(rc, k)], rc.dc.spec.name, IsReady)
      invariant started == CountIn(rc.PodViews()[..Reached(rc, k)], rc.dc.spec.name, IsStarted)
    {
      CountNext(rc, k, IsReady);
      CountNext(rc, k, IsStarted);
      if IsReady(rc.dcPods[k].View()) {
        ready := ready + 1;
      }
      if IsStarted(rc.dcPods[k].View()) {
        started := started + 1;
      }
    }
    CountEnd(rc, IsReady);
    CountEnd(rc, IsStarted);
  }
}
