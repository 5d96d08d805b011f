/** Bringing nodes up: one at a time in the whole cluster, always making progress, with a seed
    at hand, and one per rack before a second anywhere. */
module BringUp {
  import opened Model
  import opened Specs
  import opened Pass
  import opened Frames
  import opened Labels
  import opened Decommission
  import Startup

  // ----- One at a time -----

  ghost predicate OneStarting(pods: seq<PodView>) {
    forall i, j :: 0 <= i < j < |pods| ==> !(IsStarting(pods[i]) && IsStarting(pods[j]))
  }

  ghost predicate NoneStarting(pods: seq<PodView>) {
    forall i :: 0 <= i < |pods| ==> !IsStarting(pods[i])
  }

  lemma RelabelKeepsOne(c: Check, w: World, w': World, r: Result, i: int)
    requires Relabelled(c, w, w', r, i) && OneStarting(w.pods)
    requires c.OnePerRack? || c.AllNodes? ==> NoneStarting(w.pods)
    ensures OneStarting(w'.pods)
  {
  }

  lemma SameLabelsKeepOne(w: World, w': World)
    requires SameLabels(w, w') && OneStarting(w.pods)
    ensures OneStarting(w'.pods) && (NoneStarting(w.pods) ==> NoneStarting(w'.pods))
  {
  }

  /** Once the check for starting nodes hands over, no node is starting any more. */
  lemma NoneLeftStarting(w: World, w': World)
    requires StartingNodesSpec(w, w', Continue) && OneStarting(w.pods)
    ensures NoneStarting(w'.pods)
  {
    if w' != w {
      var i :| FirstStarting(w, i) && w' == SetState(w, i, Started);
    }
  }

  ghost predicate StartPhase(k: nat, w: World) {
    OneStarting(w.pods) && (14 <= k <= 16 && !w.dc.spec.stopped ==> NoneStarting(w.pods))
  }

  lemma StartPhaseEnds(c: Check, w: World, w': World, r: Result)
    requires StepSpec(c, w, w', r) && OneStarting(w.pods)
    requires (c.OnePerRack? || c.AllNodes?) && !w.dc.spec.stopped ==> NoneStarting(w.pods)
    ensures OneStarting(w'.pods)
  {
    StepLabels(c, w, w', r);
    if SameLabels(w, w') {
      SameLabelsKeepOne(w, w');
    } else {
      var i :| Relabelled(c, w, w', r, i);
      RelabelKeepsOne(c, w, w', r, i);
    }
  }

  lemma WhereStarts(k: nat)
    ensures CheckAt(k).OnePerRack? ==> k == 14
    ensures CheckAt(k).AllNodes? ==> k == 16
  {
  }

  lemma NoneStartingNext(c: Check, w: World, w': World)
    requires StepSpec(c, w, w', Continue) && OneStarting(w.pods) && !w.dc.spec.stopped
    requires c.StartingNodes? || ((c.OnePerRack? || c.ClusterHealth?) && NoneStarting(w.pods))
    ensures NoneStarting(w'.pods)
  {
    if c.StartingNodes? {
      NoneLeftStarting(w, w');
    } else {
      StepLabels(c, w, w', Continue);
      SameLabelsKeepOne(w, w');
    }
  }

  lemma StartPhaseNext(k: nat, w: World, w': World)
    requires StartPhase(k, w) && StepSpec(CheckAt(k), w, w', Continue)
    ensures StartPhase(k + 1, w')
  {
    var c := CheckAt(k);
    WhereStarts(k);
    StartPhaseEnds(c, w, w', Continue);
    StepShape(c, w, w', Continue);
    if 13 <= k <= 15 && !w.dc.spec.stopped {
      NoneStartingNext(c, w, w');
    }
  }

  lemma {:induction false} ReachStartPhase(k: nat, w0: World, w: World)
    requires OneStarting(w0.pods) && Reaches(k, w0, w)
    ensures StartPhase(k, w)
  {
    hide StepSpec;
    if k > 0 {
      var j := k - 1;
      var m := Before(k, w0, w);
      ReachStartPhase(j, w0, m);
      StartPhaseNext(j, m, w);
    }
  }

  /** A pass over one datacenter keeps it so that at most one pod of the whole cluster is starting. */
  lemma PassKeepsOneStarting(w0: World, w': World)
    requires OneStarting(w0.pods) && PassSpec(w0, w')
    ensures OneStarting(w'.pods)
  {
    hide StepSpec;
    var k, m, r := PassEnd(w0, w');
    ReachStartPhase(k, w0, m);
    if k < CHECKS {
      WhereStarts(k);
      StartPhaseEnds(CheckAt(k), m, w', r);
    }
  }

  // ----- Progress -----

  /** What bringing up a pod still takes: a start and a finish, or a finish. */
  function Weight(s: NodeState): nat {
    match s
    case Unlabelled => 2
    case ReadyToStart => 2
    case Starting => 1
    case _ => 0
  }

  function Load(pods: seq<PodView>): nat {
    if pods == [] then 0
    else Load(pods[..|pods| - 1]) + Weight(pods[|pods| - 1].state)
  }

  lemma {:induction false} SameLoad(a: seq<PodView>, b: seq<PodView>)
    requires |a| == |b| && forall i :: 0 <= i < |a| ==> a[i].state == b[i].state
    ensures Load(a) == Load(b)
  {
    if a != [] {
      SameLoad(a[..|a| - 1], b[..|b| - 1]);
    }
  }

  lemma {:induction false} OneRelabelled(a: seq<PodView>, b: seq<PodView>, i: int)
    requires 0 <= i < |a| == |b|
    requires forall j :: 0 <= j < |a| && j != i ==> a[j].state == b[j].state
    ensures Load(b) == Load(a) - Weight(a[i].state) + Weight(b[i].state)
  {
    var n := |a| - 1;
    if i == n {
      SameLoad(a[..n], b[..n]);
    } else {
      OneRelabelled(a[..n], b[..n], i);
    }
  }

  ghost predicate SameStarting(a: seq<PodView>, b: seq<PodView>) {
    |a| == |b| && forall i :: 0 <= i < |a| ==> (IsStarting(a[i]) <==> IsStarting(b[i]))
  }

  /** The work left never rises, and drops whenever a pod begins or stops starting. */
  ghost predicate Progresses(a: seq<PodView>, b: seq<PodView>) {
    Load(b) <= Load(a) && |a| == |b| && (Load(b) == Load(a) ==> SameStarting(a, b))
  }

  lemma RelabelProgresses(c: Check, w: World, w': World, r: Result, i: int)
    requires Relabelled(c, w, w', r, i)
    requires c.AllNodes? ==> NoDc(w, IsDecommissioning)
    ensures Progresses(w.pods, w'.pods)
  {
    OneRelabelled(w.pods, w'.pods, i);
  }

  lemma StepProgresses(c: Check, w: World, w': World, r: Result)
    requires StepSpec(c, w, w', r)
    requires c.AllNodes? ==> NoDc(w, IsDecommissioning)
    ensures Progresses(w.pods, w'.pods)
  {
    StepLabels(c, w, w', r);
    if SameLabels(w, w') {
      SameLoad(w.pods, w'.pods);
    } else {
      var i :| Relabelled(c, w, w', r, i);
      RelabelProgresses(c, w, w', r, i);
    }
  }

  lemma ProgressTransitive(a: seq<PodView>, b: seq<PodView>, c: seq<PodView>)
    requires Progresses(a, b) && Progresses(b, c)
    ensures Progresses(a, c)
  {
  }

  lemma {:induction false} ReachProgresses(k: nat, w0: World, w: World)
    requires WellNamed(w0) && OneLeaver(w0) && Reaches(k, w0, w)
    ensures Progresses(w0.pods, w.pods)
  {
    hide StepSpec;
    if k > 0 {
      var j := k - 1;
      var m := Before(k, w0, w);
      ReachProgresses(j, w0, m);
      ReachPhase(j, w0, m);
      WhereStarts(j);
      StepProgresses(CheckAt(j), m, w, Continue);
      ProgressTransitive(w0.pods, m.pods, w.pods);
    }
  }

  /** Every pass makes progress at bringing nodes up, or starts and finishes none. */
  lemma PassProgresses(w0: World, w': World)
    requires WellNamed(w0) && OneLeaver(w0) && PassSpec(w0, w')
    ensures Progresses(w0.pods, w'.pods)
  {
    hide StepSpec;
    var k, m, r := PassEnd(w0, w');
    ReachProgresses(k, w0, m);
    if k < CHECKS {
      ReachPhase(k, w0, m);
      WhereStarts(k);
      StepProgresses(CheckAt(k), m, w', r);
      ProgressTransitive(w0.pods, m.pods, w'.pods);
    }
  }

  // ----- Order -----

  /** Every pod that ought to be a seed by being ready carries the seed label. */
  ghost predicate Seeded(w: World) {
    forall i :: IsReadySeed(w, i) ==> w.pods[i].seed
  }

  lemma SameReadySeed(w: World, w': World, i: int)
    requires SameShape(w, w')
    ensures IsReadySeed(w', i) <==> IsReadySeed(w, i)
  {
    if InDc(w, i) {
      assert ReadyBefore(w', i) == ReadyBefore(w, i);
    }
  }

  lemma SeededKept(w: World, w': World)
    requires SameShape(w, w') && Seeded(w)
    requires forall i :: 0 <= i < |w.pods| && w.pods[i].seed ==> w'.pods[i].seed
    ensures Seeded(w')
  {
    forall i | IsReadySeed(w', i) ensures w'.pods[i].seed {
      SameReadySeed(w, w', i);
    }
  }

  lemma SeededByCheck(w: World, w': World)
    requires SeedLabelsSpec(w, w', Continue)
    ensures Seeded(w')
  {
    SeedLabelsKeeps(w, w', Continue);
    KeepsShape(SeedLabels, w, w');
    forall i | IsReadySeed(w', i) ensures w'.pods[i].seed {
      SameReadySeed(w, w', i);
    }
  }

  lemma SameReadyRack(w: World, w': World, rack: string)
    requires SameShape(w, w')
    ensures RackHasReady(w', rack) <==> RackHasReady(w, rack)
  {
    if i :| InDc(w, i) && w.pods[i].info.rack == rack && w.pods[i].info.ready {
      assert InDc(w', i);
    }
    if i :| InDc(w', i) && w'.pods[i].info.rack == rack && w'.pods[i].info.ready {
      assert InDc(w, i);
    }
  }

  /** Past the seed check the labels are right, and past the first-of-rack check every rack has
      a ready node. */
  ghost predicate OrderPhase(k: nat, w: World) {
    && (k >= 1 ==> |w.dc.spec.racks| <= w.dc.spec.size)
    && (12 <= k <= 16 && !w.dc.spec.stopped ==> Seeded(w))
    && (15 <= k <= 16 && !w.dc.spec.stopped ==> EveryRackHasReady(w))
  }

  lemma SeededNext(c: Check, w: World, w': World)
    requires StepSpec(c, w, w', Continue) && !w.dc.spec.stopped
    requires c.SeedLabels? || ((c.RefreshSeeds? || c.StartingNodes? || c.OnePerRack? || c.ClusterHealth?) && Seeded(w))
    ensures Seeded(w')
  {
    hide Seeded, SeedLabelsSpec, OnePerRackSpec;
    if c.SeedLabels? {
      SeededByCheck(w, w');
    } else if c.OnePerRack? {
      HandedOver(w, w');
    } else {
      StepKeeps(c, w, w', Continue);
      StepShape(c, w, w', Continue);
      SeededKept(w, w');
    }
  }

  /** The first-of-rack check hands over only when every rack has a ready node. */
  lemma HandedOver(w: World, w': World)
    requires OnePerRackSpec(w, w', Continue)
    ensures w' == w && EveryRackHasReady(w)
  {
  }

  lemma EveryRackNext(c: Check, w: World, w': World)
    requires StepSpec(c, w, w', Continue) && !w.dc.spec.stopped
    requires c.OnePerRack? || (c.ClusterHealth? && EveryRackHasReady(w))
    ensures EveryRackHasReady(w')
  {
    if c.OnePerRack? {
      HandedOver(w, w');
    }
  }

  lemma EnoughNodes(c: Check, w: World, w': World)
    requires StepSpec(c, w, w', Continue) && c.RackInformation?
    ensures |w'.dc.spec.racks| <= w'.dc.spec.size
  {
  }

  lemma OrderPhaseNext(k: nat, w: World, w': World)
    requires OrderPhase(k, w) && StepSpec(CheckAt(k), w, w', Continue)
    ensures OrderPhase(k + 1, w')
  {
    var c := CheckAt(k);
    StepShape(c, w, w', Continue);
    if k == 0 {
      EnoughNodes(c, w, w');
    }
    if 11 <= k <= 15 && !w.dc.spec.stopped {
      SeededNext(c, w, w');
    }
    if 14 <= k <= 15 && !w.dc.spec.stopped {
      EveryRackNext(c, w, w');
    }
  }

  lemma {:induction false} ReachOrderPhase(k: nat, w0: World, w: World)
    requires Reaches(k, w0, w)
    ensures OrderPhase(k, w)
  {
    hide StepSpec;
    if k > 0 {
      var j := k - 1;
      var m := Before(k, w0, w);
      ReachOrderPhase(j, w0, m);
      OrderPhaseNext(j, m, w);
    }
  }

  /** A seed can be found: outside the datacenter, or among its labelled pods. */
  ghost predicate SeedAvailable(w: World) {
    w.dc.spec.additionalSeeds > 0 || exists i :: InDc(w, i) && w.pods[i].seed
  }

  /** Pod `i` was started in its turn. */
  ghost predicate InOrder(w: World, i: int)
    requires 0 <= i < |w.pods|
  {
    && InDc(w, i) && SeedAvailable(w)
    && (RackHasReady(w, w.pods[i].info.rack) ==> EveryRackHasReady(w))
  }

  ghost predicate Begins(w: World, w': World, i: int) {
    0 <= i < |w.pods| == |w'.pods| && IsStarting(w'.pods[i]) && !IsStarting(w.pods[i])
  }

  lemma FirstOfRackInOrder(w: World, w': World, r: Result, i: int)
    requires OnePerRackSpec(w, w', r) && Seeded(w) && Begins(w, w', i)
    ensures InOrder(w', i)
  {
    var j :| Opens(w, j) && FirstOfRack(w, j) && StartSpec(w, w', j, MustSeed(w), r);
    StartLabels(w, w', j, MustSeed(w), r);
    assert j == i;
    OpenedInOrder(w, w', r, i);
  }

  lemma OpenedInOrder(w: World, w': World, r: Result, i: int)
    requires Seeded(w) && Opens(w, i) && StartSpec(w, w', i, MustSeed(w), r) && Begins(w, w', i)
    ensures InOrder(w', i)
  {
    StartKeeps(w, w', i, MustSeed(w), r);
    KeepsShape(OnePerRack, w, w');
    SameReadyRack(w, w', w.pods[i].info.rack);
    if MustSeed(w) {
      assert InDc(w', i) && w'.pods[i].seed;
    } else if w.dc.spec.additionalSeeds == 0 {
      var j :| IsReadySeed(w, j);
      assert InDc(w', j) && w'.pods[j].seed;
    }
  }

  lemma FurtherNodeInOrder(w: World, w': World, r: Result, i: int)
    requires AllNodesSpec(w, w', r) && Begins(w, w', i)
    requires WellFormed(w) && Seeded(w) && EveryRackHasReady(w) && !w.dc.spec.stopped && |w.dc.spec.racks| <= w.dc.spec.size
    ensures InOrder(w', i)
  {
    StartedInDc(w, w', r, i);
    AllNodesKeeps(w, w', r);
    KeepsShape(AllNodes, w, w');
    var s := ReadySeed(w);
    assert InDc(w', s) && w'.pods[s].seed;
    forall k | 0 <= k < |w'.dc.spec.racks| ensures RackHasReady(w', w'.dc.spec.racks[k]) {
      SameReadyRack(w, w', w.dc.spec.racks[k]);
    }
  }

  lemma StartedInDc(w: World, w': World, r: Result, i: int)
    requires AllNodesSpec(w, w', r) && Begins(w, w', i)
    ensures InDc(w, i)
  {
    var j :| FirstDc(w, j, NeedsStart) && StartSpec(w, w', j, false, r);
    StartLabels(w, w', j, false, r);
  }

  lemma ReadySeed(w: World) returns (s: int)
    requires WellFormed(w) && EveryRackHasReady(w) && !w.dc.spec.stopped && |w.dc.spec.racks| <= w.dc.spec.size
    ensures IsReadySeed(w, s)
  {
    assert RackHasReady(w, w.dc.spec.racks[0]);
    Startup.SeedsExistWhereReady(w);
    s :| IsReadySeed(w, s);
  }

  /** Only two checks start nodes, and neither of them while the datacenter is stopped. */
  lemma WhoStarts(c: Check, w: World, w': World, r: Result, i: int)
    requires StepSpec(c, w, w', r) && Begins(w, w', i)
    ensures (c.OnePerRack? || c.AllNodes?) && r != Continue && !w.dc.spec.stopped
  {
    StepLabels(c, w, w', r);
    var j :| Relabelled(c, w, w', r, j);
  }

  lemma StartedInOrder(k: nat, w: World, w': World, r: Result, i: int)
    requires OrderPhase(k, w) && StepSpec(CheckAt(k), w, w', r) && Begins(w, w', i)
    ensures InOrder(w', i)
  {
    WhereStarts(k);
    WhoStarts(CheckAt(k), w, w', r, i);
    if k == 14 {
      FirstOfRackInOrder(w, w', r, i);
    } else {
      FurtherNodeInOrder(w, w', r, i);
    }
  }

  lemma {:induction false} ReachStartsNone(k: nat, w0: World, w: World, i: int)
    requires Reaches(k, w0, w)
    ensures !Begins(w0, w, i) && |w.pods| == |w0.pods|
  {
    hide StepSpec;
    if k > 0 {
      var m := Before(k, w0, w);
      ReachStartsNone(k - 1, w0, m, i);
      StepShape(CheckAt(k - 1), m, w, Continue);
      if Begins(m, w, i) {
        WhoStarts(CheckAt(k - 1), m, w, Continue, i);
      }
    }
  }

  /** Whenever a pass starts a pod, a seed is available, and the pod is the first of its rack
      unless every rack already has a ready pod. */
  lemma PassStartsInOrder(w0: World, w': World, i: int)
    requires PassSpec(w0, w') && Begins(w0, w', i)
    ensures InOrder(w', i)
  {
    hide StepSpec;
    var k, m, r := PassEnd(w0, w');
    ReachStartsNone(k, w0, m, i);
    assert k < CHECKS;
    ReachOrderPhase(k, w0, m);
    StartedInOrder(k, m, w', r, i);
  }
}
