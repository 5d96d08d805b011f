/** Rolling changes through a datacenter: template writes rack by rack, restarts pod by pod, each
    only while enough nodes are up. */
module Rolling {
  import opened Model
  import opened Specs
  import opened EmmSpecs
  import opened Pass
  import opened Frames
  import opened Convergence
  import opened Draining

  // ----- Templates -----

  /** How many of the first `n` racks lack the current template. */
  function StaleRacks(sts: seq<StsView>, hashes: seq<int>, n: nat): nat
    requires n <= |sts| == |hashes|
  {
    if n == 0 then 0 else StaleRacks(sts, hashes, n - 1) + if sts[n - 1].hash == hashes[n - 1] then 0 else 1
  }

  /** Rack `k` alone gets the current template, all racks before it being current and settled. */
  ghost predicate RollsOut(w: World, w': World, k: int)
    requires |w.dc.spec.hashes| == |w.sts| == |w'.sts|
  {
    && 0 <= k < RolloutRacks(w) && !UpToDate(w, k)
    && (forall j :: 0 <= j < k ==> UpToDate(w, j) && Settled(w.sts[j]))
    && w'.sts[k].hash == w.dc.spec.hashes[k]
    && (forall j :: 0 <= j < |w.sts| && j != k ==> w'.sts[j].hash == w.sts[j].hash)
  }

  ghost predicate SameTemplates(w: World, w': World) {
    |w'.sts| == |w.sts| && forall k :: 0 <= k < |w.sts| ==> w'.sts[k].hash == w.sts[k].hash
  }

  lemma TemplateStep(w: World, w': World, r: Result)
    requires |w.dc.spec.hashes| == |w.sts| && PodTemplateSpec(w, w', r)
    ensures |w'.sts| == |w.sts| && w'.pods == w.pods && w'.dc.spec == w.dc.spec
    ensures SameTemplates(w, w') || exists k :: RollsOut(w, w', k)
    ensures r == Continue ==> w' == w
  {
    if w'.sts != w.sts {
      var k :| FirstUnsettled(w, k) && !UpToDate(w, k) && TemplateWriteSpec(w, w', k, r);
      assert RollsOut(w, w', k);
    }
  }

  lemma StepTemplates(c: Check, w: World, w': World, r: Result)
    requires StepSpec(c, w, w', r)
    ensures c.PodTemplate? || SameTemplates(w, w')
    ensures r == Continue ==> SameTemplates(w, w')
  {
    hide PodTemplateSpec;
    StepKeeps(c, w, w', r);
    if c.PodTemplate? {
      TemplateStep(w, w', r);
    }
  }

  lemma {:induction false} ReachTemplates(k: nat, w0: World, w: World)
    requires Reaches(k, w0, w)
    ensures SameTemplates(w0, w)
  {
    hide StepSpec;
    if k > 0 {
      var m := Before(k, w0, w);
      ReachTemplates(k - 1, w0, m);
      StepTemplates(CheckAt(k - 1), m, w, Continue);
    }
  }

  lemma RollsOutFromStart(w0: World, m: World, w': World, k: int)
    requires |w0.dc.spec.hashes| == |w0.sts| && SameShape(w0, m) && SameTemplates(w0, m)
    requires |w'.sts| == |m.sts| && RollsOut(m, w', k)
    ensures RollsOut(w0, w', k)
  {
  }

  lemma RolloutEnd(k: nat, w0: World, m: World, w': World, r: Result)
    requires k < CHECKS && WellFormed(w0) && WellFormed(m) && Established(k, m)
    requires SameShape(w0, m) && SameTemplates(w0, m) && StepSpec(CheckAt(k), m, w', r)
    ensures |w'.sts| == |w0.sts|
    ensures SameTemplates(w0, w') || ((exists l :: RollsOut(w0, w', l)) && (w0.dc.spec.stopped || EnoughUp(w')))
  {
    hide StepSpec;
    StepTemplates(CheckAt(k), m, w', r);
    if !SameTemplates(w0, w') {
      WrittenWhileUp(k, m, w', r);
      var l :| RollsOut(m, w', l);
      RollsOutFromStart(w0, m, w', l);
    }
  }

  lemma WrittenWhileUp(k: nat, w: World, w': World, r: Result)
    requires k < CHECKS && WellFormed(w) && Established(k, w) && StepSpec(CheckAt(k), w, w', r) && CheckAt(k).PodTemplate?
    ensures |w'.sts| == |w.sts| && (SameTemplates(w, w') || exists l :: RollsOut(w, w', l))
    ensures w.dc.spec.stopped || EnoughUp(w')
  {
    hide PodTemplateSpec, RollsOut, SameTemplates;
    TemplateStep(w, w', r);
  }

  /** A pass writes the template of at most one rack: the first that is not current, with every
      rack before it current and settled, and on a running datacenter with enough nodes up. */
  lemma PassRollsOut(w0: World, w': World)
    requires WellFormed(w0) && PassSpec(w0, w')
    ensures |w'.sts| == |w0.sts|
    ensures SameTemplates(w0, w') || ((exists k :: RollsOut(w0, w', k)) && (w0.dc.spec.stopped || EnoughUp(w')))
  {
    hide StepSpec;
    var k, m, r := PassEnd(w0, w');
    ReachShape(k, w0, m);
    ReachTemplates(k, w0, m);
    if k < CHECKS {
      ReachEstablished(k, w0, m);
      RolloutEnd(k, w0, m, w', r);
    }
  }

  lemma {:induction false} StaleRacksSame(a: seq<StsView>, b: seq<StsView>, hashes: seq<int>, n: nat)
    requires n <= |a| == |b| == |hashes| && forall j :: 0 <= j < n ==> a[j].hash == b[j].hash
    ensures StaleRacks(b, hashes, n) == StaleRacks(a, hashes, n)
  {
    if n > 0 {
      StaleRacksSame(a, b, hashes, n - 1);
    }
  }

  lemma {:induction false} StaleRacksDrop(a: seq<StsView>, b: seq<StsView>, hashes: seq<int>, k: int, n: nat)
    requires 0 <= k < n <= |a| == |b| == |hashes|
    requires a[k].hash != hashes[k] == b[k].hash
    requires forall j :: 0 <= j < n && j != k ==> a[j].hash == b[j].hash
    ensures StaleRacks(b, hashes, n) == StaleRacks(a, hashes, n) - 1
  {
    if k == n - 1 {
      StaleRacksSame(a, b, hashes, k);
    } else {
      StaleRacksDrop(a, b, hashes, k, n - 1);
    }
  }

  /** So with the spec unchanged there are at most as many template writes as stale racks. */
  lemma PassRollsForward(w0: World, w': World)
    requires WellFormed(w0) && PassSpec(w0, w')
    ensures |w'.sts| == |w0.sts|
    ensures var n, hashes := |w0.sts|, w0.dc.spec.hashes;
            StaleRacks(w'.sts, hashes, n) == StaleRacks(w0.sts, hashes, n) - if SameTemplates(w0, w') then 0 else 1
  {
    hide StepSpec, Reaches;
    PassRollsOut(w0, w');
    var n, hashes := |w0.sts|, w0.dc.spec.hashes;
    if SameTemplates(w0, w') {
      StaleRacksSame(w0.sts, w'.sts, hashes, n);
    } else {
      var k :| RollsOut(w0, w', k);
      StaleRacksDrop(w0.sts, w'.sts, hashes, k, n);
    }
  }

  // ----- Restarts -----

  predicate Going(p: PodView) { p.removed || p.info.terminating }

  predicate IsOld(p: PodView, dc: string, cutoff: int) {
    p.info.dc == dc && p.info.created < cutoff
  }

  /** How many of the datacenter's pods are older than the cutoff and not on their way out. */
  function OldPods(pods: seq<PodView>, dc: string, cutoff: int): nat {
    if pods == [] then 0
    else
      var last := pods[|pods| - 1];
      OldPods(pods[..|pods| - 1], dc, cutoff) + if IsOld(last, dc, cutoff) && !Going(last) then 1 else 0
  }

  lemma {:induction false} OldPodsSame(a: seq<PodView>, b: seq<PodView>, dc: string, cutoff: int)
    requires |a| == |b| && forall i :: 0 <= i < |a| ==> a[i].info == b[i].info && a[i].removed == b[i].removed
    ensures OldPods(b, dc, cutoff) == OldPods(a, dc, cutoff)
  {
    if a != [] {
      OldPodsSame(a[..|a| - 1], b[..|b| - 1], dc, cutoff);
    }
  }

  lemma {:induction false} OldPodsDrop(a: seq<PodView>, b: seq<PodView>, dc: string, cutoff: int, i: int)
    requires 0 <= i < |a| == |b| && IsOld(a[i], dc, cutoff) && b[i].removed
    requires forall j :: 0 <= j < |a| ==> a[j].info == b[j].info && (j != i ==> a[j].removed == b[j].removed)
    ensures OldPods(b, dc, cutoff) == OldPods(a, dc, cutoff) - if Going(a[i]) then 0 else 1
  {
    var n := |a| - 1;
    if i == n {
      OldPodsSame(a[..n], b[..n], dc, cutoff);
    } else {
      OldPodsDrop(a[..n], b[..n], dc, cutoff, i);
    }
  }

  ghost predicate SameRemovals(w: World, w': World) {
    |w'.pods| == |w.pods| && forall i :: 0 <= i < |w.pods| ==> w'.pods[i].removed == w.pods[i].removed
  }

  /** Pod `i` alone is deleted, being older than the last restart asked for. */
  ghost predicate RestartsPod(w: World, w': World, i: int) {
    && InDc(w, i) && |w'.pods| == |w.pods| && w.pods[i].info.created < w'.dc.lastRestart
    && w'.pods[i].removed
    && forall j :: 0 <= j < |w.pods| && j != i ==> w'.pods[j].removed == w.pods[j].removed
  }

  lemma RestartStep(w: World, w': World, r: Result)
    requires RollingRestartSpec(w, w', r)
    ensures SameRemovals(w, w') || exists i :: RestartsPod(w, w', i)
    ensures r == Continue ==> w'.pods == w.pods && forall i :: InDc(w', i) ==> w'.pods[i].info.created >= w'.dc.lastRestart
  {
    if w'.pods != w.pods {
      var a := RestartBegun(w);
      var i :| FirstOld(a, i) && w' == RemovePod(a, i);
      assert RestartsPod(w, w', i);
    }
  }

  lemma HandsOverUnremoved(c: Check, w: World, w': World)
    requires StepSpec(c, w, w', Continue)
    ensures SameRemovals(w, w')
  {
    hide RollingRestartSpec, EmmSpec;
    StepKeeps(c, w, w', Continue);
    if c.Drains? {
      DrainsHandOver(w, w');
    } else if c.RestartPods? {
      RestartStep(w, w', Continue);
    }
  }

  lemma DrainsHandOver(w: World, w': World)
    requires EmmSpec(w, w', Continue)
    ensures w' == w
  {
    var a := EmmActs(w, w', Continue);
  }

  lemma {:induction false} ReachRemovesNone(k: nat, w0: World, w: World)
    requires Reaches(k, w0, w)
    ensures SameRemovals(w0, w)
  {
    hide StepSpec;
    if k > 0 {
      var m := Before(k, w0, w);
      ReachRemovesNone(k - 1, w0, m);
      HandsOverUnremoved(CheckAt(k - 1), m, w);
    }
  }

  lemma RestartedWhileUp(k: nat, w: World, w': World, r: Result)
    requires k < CHECKS && WellFormed(w) && Established(k, w) && StepSpec(CheckAt(k), w, w', r) && CheckAt(k).RestartPods?
    ensures SameRemovals(w, w') || exists i :: RestartsPod(w, w', i)
    ensures w.dc.spec.stopped || EnoughUp(w)
  {
    hide RollingRestartSpec, RestartsPod, SameRemovals;
    RestartStep(w, w', r);
  }

  /** A pass that ends at the restart check deletes at most one pod, an old one, and on a running
      datacenter only with enough nodes up. Each deletion leaves one old pod less to restart,
      unless the pod was on its way out already. */
  lemma PassRestartsOne(k: nat, w0: World, w': World, r: Result)
    requires WellFormed(w0) && EndsAt(k, w0, w', r) && CheckAt(k).RestartPods?
    ensures SameRemovals(w0, w') || exists i :: RestartsPod(w0, w', i) && Restarted(w0, w', i)
  {
    hide StepSpec;
    var m :| Reaches(k, w0, m) && StepSpec(CheckAt(k), m, w', r);
    ReachShape(k, w0, m);
    ReachRemovesNone(k, w0, m);
    ReachEstablished(k, w0, m);
    RestartedWhileUp(k, m, w', r);
    StepShape(CheckAt(k), m, w', r);
    if !SameRemovals(w0, w') {
      var i :| RestartsPod(m, w', i);
      RestartedFrom(w0, m, w', i);
    }
  }

  ghost predicate Restarted(w: World, w': World, i: int)
    requires 0 <= i < |w.pods|
  {
    var cutoff := w'.dc.lastRestart;
    && (w.dc.spec.stopped || w.dc.spec.size <= CountDc(w, IsReady))
    && OldPods(w'.pods, w.dc.spec.name, cutoff) == OldPods(w.pods, w.dc.spec.name, cutoff) - if Going(w.pods[i]) then 0 else 1
  }

  lemma {:induction false} SameReadyCount(a: seq<PodView>, b: seq<PodView>, dc: string)
    requires |a| == |b| && forall i :: 0 <= i < |a| ==> a[i].info == b[i].info
    ensures CountIn(a, dc, IsReady) == CountIn(b, dc, IsReady)
  {
    if a != [] {
      SameReadyCount(a[..|a| - 1], b[..|b| - 1], dc);
    }
  }

  lemma RestartedFrom(w0: World, m: World, w': World, i: int)
    requires SameShape(w0, m) && SameShape(m, w') && SameRemovals(w0, m) && RestartsPod(m, w', i)
    requires m.dc.spec.stopped || EnoughUp(m)
    ensures RestartsPod(w0, w', i) && Restarted(w0, w', i)
  {
    SameReadyCount(w0.pods, m.pods, w0.dc.spec.name);
    OldPodsDrop(w0.pods, w'.pods, w0.dc.spec.name, w'.dc.lastRestart, i);
  }
}
