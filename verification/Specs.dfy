/** What each check of a reconcile pass may do: for every check, a relation between the world
    before it, the world after it and its result. `Continue` hands over to the next check; any
    other result ends the pass. A failed write leaves the API server's copy as it was. */
module Specs {
  import opened Conditions
  import opened Racks
  import opened Names
  import opened Lists
  import opened Model

  /** A call out that changes nothing modelled here. */
  ghost predicate ExternalSpec(w: World, w': World, r: Result) {
    w' == w && (r == Continue || Fails(w))
  }

  ghost predicate RackInformationSpec(w: World, w': World, r: Result) {
    w' == w && r == if |w.dc.spec.racks| <= w.dc.spec.size then Continue else Error
  }

  ghost predicate InvalidStateSpec(w: World, w': World, r: Result) {
    w' == w && r == if Condition_(w, DcValid) == False then Error else Continue
  }

  /** One pod is deleted, or the call fails. */
  ghost predicate DeletesPod(w: World, w': World, i: int, r: Result, success: Result)
    requires 0 <= i < |w.pods|
  {
    || (r == success && w' == RemovePod(w, i))
    || (r == Error && Fails(w) && w' == w)
  }

  /** A claim lookup that fails otherwise than with "not found" passes the pod over, so while calls
      may fail the pod found without its claim need not be the first one. */
  ghost predicate FoundWithoutPvc(w: World, i: int) {
    InDc(w, i) && LacksPvc(w.pods[i]) && (Fails(w) || FirstDc(w, i, LacksPvc))
  }

  /** No pod need be found without its claim. */
  ghost predicate ClaimsPass(w: World) {
    Fails(w) || NoDc(w, LacksPvc)
  }

  ghost predicate MissingPvcSpec(w: World, w': World, r: Result) {
    || (r == Continue && w' == w && ClaimsPass(w))
    || exists i :: FoundWithoutPvc(w, i) && DeletesPod(w, w', i, r, Requeue)
  }

  // ----- Status and node replacement -----

  /** A pending replacement is over once its pod is Started and is the one created since the
      replacement began, or after thirty minutes. */
  ghost predicate ReplacementOver(w: World, i: int) {
    && InDc(w, i)
    && w.pods[i].state == Started
    && Condition_(w, ReplacingNodes) == True
    && var since := SinceOf(w.dc.conditions, ReplacingNodes);
       since < w.env.now - 1800 || since <= w.pods[i].info.created
  }

  ghost function OverNames(w: World): set<string> {
    set i | 0 <= i < |w.pods| && ReplacementOver(w, i) :: w.pods[i].info.name
  }

  /** Host IDs are looked up once per pod: a known one is kept, and only a pod whose
      management API runs can gain one. */
  ghost predicate HostIdsRefreshed(w: World, hostIds: map<string, string>) {
    && (forall n :: n in w.dc.hostIds ==> n in hostIds)
    && (forall n :: n in hostIds ==> n in w.dc.hostIds || exists i :: InDc(w, i) && w.pods[i].info.name == n)
    && (forall i :: InDc(w, i) ==> w.pods[i].info.name in hostIds)
    && (forall n :: n in hostIds && hostIds[n] != HostId(w.dc.hostIds, n) ==>
         && HostId(w.dc.hostIds, n) == ""
         && exists i :: InDc(w, i) && w.pods[i].info.name == n && w.pods[i].info.mgmtUp && w.pods[i].info.ip != "")
  }

  function Recorded(dc: DcView, hostIds: map<string, string>, left: seq<string>, now: int): DcView {
    dc.(hostIds := hostIds,
        conditions := if dc.replaceNodes == [] then dc.conditions else With(dc.conditions, ReplacingNodes, True, now),
        replacements := AppendAbsent(left, dc.replaceNodes),
        replaceNodes := [])
  }

  /** The spec is patched before the status, so a failure between the two forgets the names. */
  ghost predicate UpdateStatusSpec(w: World, w': World, r: Result) {
    || (r == Continue && exists hostIds ::
          && HostIdsRefreshed(w, hostIds)
          && w' == w.(dc := Recorded(w.dc, hostIds, RemoveEach(w.dc.replacements, OverNames(w)), w.env.now)))
    || (r == Error && Fails(w) && (w' == w || w' == w.(dc := w.dc.(replaceNodes := []))))
  }

  // ----- Decommissioning -----

  function StsIndex(sts: seq<StsView>, rack: string): (k: int)
    ensures -1 <= k < |sts|
    ensures k >= 0 ==> sts[k].rack == rack
    ensures forall j :: 0 <= j < (if k == -1 then |sts| else k) ==> sts[j].rack != rack
  {
    if sts == [] then -1
    else if sts[0].rack == rack then 0
    else
      var k := StsIndex(sts[1..], rack);
      if k == -1 then -1 else k + 1
  }

  /** The StatefulSet loses a replica only if the pod is still its last one. */
  function LoweredFor(w: World, i: int, k: int): World
    requires 0 <= i < |w.pods| && 0 <= k < |w.sts|
  {
    if HasSuffix(w.pods[i].info.name, LastPodSuffix(w.sts[k].replicas))
    then SetReplicas(SetProgress(w, ProgressUpdating), k, w.sts[k].replicas - 1)
    else w
  }

  function ForgetHostId(w: World, name: string): World {
    w.(dc := w.dc.(hostIds := w.dc.hostIds - {name}))
  }

  ghost predicate CleanUpSpec(w: World, w': World, i: int, r: Result)
    requires 0 <= i < |w.pods|
  {
    var p := w.pods[i];
    var k := StsIndex(w.sts, p.info.rack);
    if k == -1 then w' == w && r == Error
    else
      var lowered := LoweredFor(w, i, k);
      || (r == Requeue && p.info.hasPvc && w' == ForgetHostId(lowered, p.info.name))
      || (r == Error && !p.info.hasPvc && w' == lowered)
      || (r == Error && Fails(w) && (w' == w || w' == lowered || (lowered != w && w' == SetProgress(w, ProgressUpdating))))
  }

  ghost predicate DecommissioningSpec(w: World, w': World, r: Result) {
    if Condition_(w, ScalingDown) != True then w' == w && r == Continue
    else if NoDc(w, IsDecommissioning) then
      || (r == Continue && w' == Setting(w, ScalingDown, False))
      || (r == Error && Fails(w) && w' == w)
    else
      exists i ::
        && FirstDc(w, i, IsDecommissioning)
        && if IsDoneDecommissioning(w.pods[i], w.env.endpoints) then CleanUpSpec(w, w', i, r)
           else w' == w && r == Requeue
  }

  /** The first pod of rack `k` whose name ends in the ordinal of the rack's last replica. */
  ghost predicate FirstLastPod(w: World, i: int, k: int)
    requires 0 <= k < |w.sts|
  {
    && InDc(w, i) && MatchesLast(w.pods[i], w.sts[k].rack, w.sts[k].replicas)
    && forall j :: 0 <= j < i && InDc(w, j) ==> !MatchesLast(w.pods[j], w.sts[k].rack, w.sts[k].replicas)
  }

  function Shrinking(w: World): World {
    SetProgress(Setting(w, ScalingDown, True), ProgressUpdating)
  }

  /** Rack `k` is asked to give up its last node. */
  ghost predicate ShrinkSpec(w: World, w': World, k: int, r: Result)
    requires 0 <= k < |w.sts|
  {
    || (r == Requeue && w.env.canAbsorb && exists i ::
          FirstLastPod(w, i, k) && w.pods[i].info.mgmtUp && w' == SetState(Shrinking(w), i, Decommissioning))
    || (r == Error && !w.env.canAbsorb && w' == Setting(Shrinking(w), DcValid, False)
        && exists i :: FirstLastPod(w, i, k) && w.pods[i].info.mgmtUp)
    || (r == Error && w' == Shrinking(w)
        && (Fails(w) || forall i :: FirstLastPod(w, i, k) ==> !w.pods[i].info.mgmtUp))
    || (r == Error && Fails(w) && (w' == w || w' == Setting(w, ScalingDown, True)))
  }

  ghost predicate DecommissionNodesSpec(w: World, w': World, r: Result)
    requires w.sts != []
  {
    var total := Sum(Replicas(w));
    if total <= w.dc.spec.size then w' == w && r == Continue
    else if total - 1 < |w.sts| then w' == w && r == Error
    else exists k :: FirstExcess(Replicas(w), k) && ShrinkSpec(w, w', k, r)
  }

  // ----- Stopping and scaling up -----

  function Max(a: int, b: int): int { if a < b then b else a }

  /** The first `n` StatefulSets set to their target counts. */
  function Resized(sts: seq<StsView>, targets: seq<int>, n: nat): (s: seq<StsView>)
    requires n <= |sts| == |targets|
    ensures |s| == |sts|
  {
    seq(|sts|, k requires 0 <= k < |sts| => if k < n then sts[k].(replicas := targets[k]) else sts[k])
  }

  function StopTargets(sts: seq<StsView>): (t: seq<int>)
    ensures |t| == |sts|
  {
    seq(|sts|, k requires 0 <= k < |sts| => if sts[k].replicas > 0 then 0 else sts[k].replicas)
  }

  /** New StatefulSets, conditions and progress. */
  function Moved(w: World, sts: seq<StsView>, cs: seq<Condition>, p: Progress): World {
    w.(sts := sts, dc := w.dc.(conditions := cs, progress := p))
  }

  function StopConditions(w: World): seq<Condition> {
    With(With(w.dc.conditions, DcStopped, True, w.env.now), DcReady, False, w.env.now)
  }

  function AllStopped(w: World): World {
    Moved(w, Resized(w.sts, StopTargets(w.sts), |w.sts|), StopConditions(w), ProgressUpdating)
  }

  /** A change cut short: the StatefulSets up to some rack are as intended and the rest as before,
      and so is the progress as the one or the other. */
  ghost predicate CutShort(w: World, w': World, goal: World) {
    && w'.env == w.env && w'.pods == w.pods
    && |w'.sts| == |w.sts| == |goal.sts|
    && (exists n :: UpTo(w.sts, w'.sts, goal.sts, n))
    && w'.dc == w.dc.(conditions := w'.dc.conditions, progress := w'.dc.progress)
    && (w'.dc.progress == w.dc.progress || w'.dc.progress == goal.dc.progress)
  }

  ghost predicate UpTo(sts: seq<StsView>, sts': seq<StsView>, goal: seq<StsView>, n: int)
    requires |sts'| == |sts| == |goal|
  {
    0 <= n <= |sts| && forall k :: 0 <= k < |sts| ==> sts'[k] == if k < n then goal[k] else sts[k]
  }

  ghost predicate StoppedStateSpec(w: World, w': World, r: Result) {
    if w.dc.spec.stopped && exists k :: 0 <= k < |w.sts| && w.sts[k].replicas > 0 then
      || (r == Done && w' == AllStopped(w))
      || (r == Error && Fails(w) && CutShort(w, w', AllStopped(w))
          && (w'.dc.conditions == w.dc.conditions || w'.dc.conditions == StopConditions(w)))
    else w' == w && r == Continue
  }

  function GrowCount(sts: seq<StsView>, desired: seq<int>, n: nat): nat
    requires n <= |sts| == |desired|
  {
    if n == 0 then 0 else GrowCount(sts, desired, n - 1) + if sts[n - 1].replicas < desired[n - 1] then 1 else 0
  }

  /** The conditions after `n` racks were grown: the first one resumes a stopped datacenter. */
  function GrowConditions(cs: seq<Condition>, n: nat, now: int): seq<Condition> {
    if n == 0 then cs
    else
      var before := GrowConditions(cs, n - 1, now);
      if StatusOf(before, DcStopped) == True
      then With(With(before, DcStopped, False, now), Resuming, True, now)
      else With(before, ScalingUp, True, now)
  }

  function GrowTargets(sts: seq<StsView>, desired: seq<int>): (t: seq<int>)
    requires |sts| == |desired|
    ensures |t| == |sts|
  {
    seq(|sts|, k requires 0 <= k < |sts| => Max(sts[k].replicas, desired[k]))
  }

  /** Every rack raised to its desired count. */
  function AllGrown(w: World, desired: seq<int>): World
    requires |w.sts| == |desired|
  {
    var c := GrowCount(w.sts, desired, |w.sts|);
    Moved(w, Resized(w.sts, GrowTargets(w.sts, desired), |w.sts|), GrowConditions(w.dc.conditions, c, w.env.now),
          if c == 0 then w.dc.progress else ProgressUpdating)
  }

  ghost predicate ScaleSpec(w: World, w': World, r: Result, desired: seq<int>)
    requires |w.sts| == |desired|
  {
    || (r == Continue && w' == AllGrown(w, desired))
    || (r == Error && Fails(w) && CutShort(w, w', AllGrown(w, desired))
        && exists n :: 0 <= n <= GrowCount(w.sts, desired, |w.sts|)
                       && w'.dc.conditions == GrowConditions(w.dc.conditions, n, w.env.now))
  }

  ghost predicate RackScaleSpec(w: World, w': World, r: Result)
    requires w.dc.spec.racks != [] && |w.sts| == |w.dc.spec.racks|
  {
    ScaleSpec(w, w', r, Split(Wanted(w.dc.spec), |w.dc.spec.racks|))
  }

  // ----- Bringing nodes up -----

  ghost predicate ReadinessSpec(w: World, w': World, r: Result) {
    if NoDc(w, ReadinessChanged) then w' == w && r == Continue
    else
      exists i ::
        && FirstDc(w, i, ReadinessChanged)
        && (|| (r == Requeue && LostReadiness(w.pods[i]) && w' == SetState(w, i, StartedNotReady))
            || (r == Continue && RegainedReadiness(w.pods[i]) && w' == SetState(w, i, Started))
            || (r == Error && Fails(w) && w' == w))
  }

  ghost predicate StuckSpec(w: World, w': World, r: Result) {
    if NoDc(w, IsStuck) then w' == w && r == Continue
    else exists i :: FirstDc(w, i, IsStuck) && DeletesPod(w, w', i, r, Done)
  }

  /** The ready pods of pod `i`'s rack that come before it by name. */
  ghost function ReadyBefore(w: World, i: int): set<int>
    requires 0 <= i < |w.pods|
  {
    set j | 0 <= j < |w.pods| && InDc(w, j) && w.pods[j].info.rack == w.pods[i].info.rack
            && w.pods[j].info.ready && Less(w.pods[j].info.name, w.pods[i].info.name)
  }

  /** Pod `i` is among the first ready pods of its rack, as many as the rack has seeds. */
  ghost predicate IsReadySeed(w: World, i: int) {
    && InDc(w, i) && w.pods[i].info.ready
    && var k := IndexOf(w.dc.spec.racks, w.pods[i].info.rack);
       k >= 0 && |ReadyBefore(w, i)| < SeedsInRack(w.dc.spec, k)
  }

  /** Seed labels after the check: the ready seeds, plus labelled pods that are still starting. */
  ghost function SeedAfter(w: World, i: int): bool
    requires 0 <= i < |w.pods|
  {
    var p := w.pods[i];
    if !InDc(w, i) || p.info.rack !in w.dc.spec.racks then p.seed
    else IsReadySeed(w, i) || (p.seed && p.state == Starting)
  }

  ghost function Reseeded(w: World): World {
    w.(pods := seq(|w.pods|, i requires 0 <= i < |w.pods| => w.pods[i].(seed := SeedAfter(w, i))))
  }

  ghost predicate SeedLabelsSpec(w: World, w': World, r: Result) {
    || (r == Continue && w' == Reseeded(w))
    || (r == Error && Fails(w) && w' == w.(pods := w'.pods) && |w'.pods| == |w.pods|
        && forall i :: 0 <= i < |w.pods| ==> w'.pods[i] == w.pods[i] || w'.pods[i] == Reseeded(w).pods[i])
  }

  ghost predicate HasReadySeed(w: World) {
    exists i :: IsReadySeed(w, i)
  }

  /** A rack with a ready pod has a ready seed, its first ready pod by name. */
  lemma ReadyRackHasSeed(w: World, i: int)
    requires InDc(w, i) && w.pods[i].info.ready && w.dc.spec.racks != []
    requires var k := IndexOf(w.dc.spec.racks, w.pods[i].info.rack); k >= 0 && SeedsInRack(w.dc.spec, k) > 0
    ensures HasReadySeed(w)
    decreases ReadyBefore(w, i)
  {
    if ReadyBefore(w, i) == {} {
      assert IsReadySeed(w, i);
    } else {
      var j :| j in ReadyBefore(w, i);
      LessTrichotomy(w.pods[j].info.name, w.pods[j].info.name);
      forall l | l in ReadyBefore(w, j) ensures l in ReadyBefore(w, i) {
        LessTransitive(w.pods[l].info.name, w.pods[j].info.name, w.pods[i].info.name);
      }
      assert j !in ReadyBefore(w, j);
      ReadyRackHasSeed(w, j);
    }
  }

  ghost predicate FirstStarting(w: World, i: int) {
    && 0 <= i < |w.pods| && IsStarting(w.pods[i])
    && forall j :: 0 <= j < i ==> !IsStarting(w.pods[j])
  }

  /** Looks at the whole cluster: one node finishing is enough to go on, one still starting is
      enough to wait. */
  ghost predicate StartingNodesSpec(w: World, w': World, r: Result) {
    if forall i :: 0 <= i < |w.pods| ==> !IsStarting(w.pods[i]) then w' == w && r == Continue
    else
      exists i ::
        && FirstStarting(w, i)
        && if IsReady(w.pods[i]) then
             || (r == Continue && w' == SetState(w, i, Started))
             || (r == Error && Fails(w) && w' == w)
           else w' == w && r == Requeue
  }

  /** The address a host ID is known under: nobody to ask is an error, an unknown ID is not. */
  function FindIpForHostId(endpoints: seq<Endpoint>, hostId: string): Option<string> {
    if endpoints == [] then None
    else if endpoints[0].hostId == hostId && endpoints[0].ip != "" then Some(endpoints[0].ip)
    else if |endpoints| == 1 then Some("")
    else FindIpForHostId(endpoints[1..], hostId)
  }

  /** A pod being replaced cannot be started while nobody can tell its old address. */
  predicate StartBlocked(w: World, p: PodView) {
    p.info.name in w.dc.replacements && HostId(w.dc.hostIds, p.info.name) != "" && w.env.endpoints == []
  }

  /** Cassandra is started on pod `i`, after labelling it a seed if asked to. */
  ghost predicate StartSpec(w: World, w': World, i: int, asSeed: bool, r: Result)
    requires 0 <= i < |w.pods|
  {
    var labelled := if asSeed then SetSeed(w, i, true) else w;
    var p := w.pods[i];
    || (r == Requeue && !StartBlocked(w, p) && w' == SetState(labelled, i, Starting))
    || (r == Error && (StartBlocked(w, p) || Fails(w)) && w' == labelled)
    || (r == Error && Fails(w) && (w' == w || (!StartBlocked(w, p) && w' == SetState(labelled, i, Starting))))
  }

  ghost predicate RackHasReady(w: World, rack: string) {
    exists i :: InDc(w, i) && w.pods[i].info.rack == rack && w.pods[i].info.ready
  }

  ghost predicate EveryRackHasReady(w: World) {
    forall k :: 0 <= k < |w.dc.spec.racks| ==> RackHasReady(w, w.dc.spec.racks[k])
  }

  /** A pod that can be started in a rack without a ready node. */
  ghost predicate Opens(w: World, i: int) {
    && InDc(w, i) && Startable(w.pods[i])
    && w.pods[i].info.rack in w.dc.spec.racks && !RackHasReady(w, w.pods[i].info.rack)
  }

  ghost predicate FirstOfRack(w: World, i: int)
    requires 0 <= i < |w.pods|
  {
    forall j :: 0 <= j < i && InDc(w, j) && Startable(w.pods[j]) ==> w.pods[j].info.rack != w.pods[i].info.rack
  }

  /** Without a ready seed and without seeds elsewhere, the node must be its own seed. */
  ghost predicate MustSeed(w: World) {
    !HasReadySeed(w) && w.dc.spec.additionalSeeds == 0
  }

  ghost predicate OnePerRackSpec(w: World, w': World, r: Result) {
    if exists i :: Opens(w, i) then
      exists i :: Opens(w, i) && FirstOfRack(w, i) && StartSpec(w, w', i, MustSeed(w), r)
    else w' == w && r == if EveryRackHasReady(w) then Continue else Requeue
  }

  ghost predicate ClusterHealthSpec(w: World, w': World, r: Result) {
    w' == w && r == if w.env.healthy then Continue else Requeue
  }

  ghost predicate AllNodesSpec(w: World, w': World, r: Result) {
    if NoDc(w, NeedsStart) then w' == w && r == if NoDc(w, MgmtDown) then Continue else Requeue
    else exists i :: FirstDc(w, i, NeedsStart) && StartSpec(w, w', i, false, r)
  }

  ghost predicate PendingReplacementsSpec(w: World, w': World, r: Result) {
    w' == w && r == if w.dc.replacements == [] then Continue else Requeue
  }

  ghost predicate EnoughUp(w: World) {
    w.dc.spec.size <= CountDc(w, IsReady) && w.dc.spec.size <= CountDc(w, IsStarted)
  }

  ghost predicate ReadyCountsSpec(w: World, w': World, r: Result) {
    w' == w && r == if EnoughUp(w) then Continue else Error
  }

  // ----- After the nodes are up -----

  ghost predicate AllHostIdsKnown(w: World) {
    forall i :: InDc(w, i) ==> HostId(w.dc.hostIds, w.pods[i].info.name) != ""
  }

  ghost predicate NodeStatusesSpec(w: World, w': World, r: Result) {
    w' == w && r == if AllHostIdsKnown(w) then Continue else Requeue
  }

  function RestartAccepted(w: World): World {
    w.(dc := w.dc.(lastRestart := w.env.now, conditions := With(w.dc.conditions, RollingRestart, True, w.env.now)))
  }

  function RestartBegun(w: World): World {
    if w.dc.restartRequested then
      var a := RestartAccepted(w);
      a.(dc := a.dc.(restartRequested := false))
    else w
  }

  ghost predicate FirstOld(w: World, i: int) {
    && InDc(w, i) && w.pods[i].info.created < w.dc.lastRestart
    && forall j :: 0 <= j < i && InDc(w, j) ==> w.pods[j].info.created >= w.dc.lastRestart
  }

  ghost predicate RollingRestartSpec(w: World, w': World, r: Result) {
    var a := RestartBegun(w);
    || (r == Error && Fails(w) && w.dc.restartRequested && (w' == w || w' == RestartAccepted(w)))
    || if forall i :: InDc(a, i) ==> a.pods[i].info.created >= a.dc.lastRestart then w' == a && r == Continue
       else exists i :: FirstOld(a, i) && DeletesPod(a, w', i, r, Done)
  }

  predicate Settled(s: StsView) {
    && s.status.generation == s.status.observedGeneration
    && s.status.replicas == s.status.readyReplicas == s.status.currentReplicas == s.status.updatedReplicas
  }

  predicate UpToDate(w: World, k: int)
    requires 0 <= k < |w.sts| && |w.dc.spec.hashes| == |w.sts|
  {
    w.sts[k].hash == w.dc.spec.hashes[k]
  }

  /** How many racks a template change reaches. */
  function RolloutRacks(w: World): int {
    if w.dc.spec.canary && |w.sts| > 1 then 1 else |w.sts|
  }

  ghost predicate FirstUnsettled(w: World, k: int)
    requires |w.dc.spec.hashes| == |w.sts|
  {
    && 0 <= k < RolloutRacks(w) && !(UpToDate(w, k) && Settled(w.sts[k]))
    && forall j :: 0 <= j < k ==> UpToDate(w, j) && Settled(w.sts[j])
  }

  function TemplateWritten(w: World, k: int): World
    requires 0 <= k < |w.sts| && |w.dc.spec.hashes| == |w.sts|
  {
    SetSts(SetProgress(Setting(w, Updating, True), ProgressUpdating), k, w.sts[k].(hash := w.dc.spec.hashes[k]))
  }

  ghost predicate PodTemplateSpec(w: World, w': World, r: Result)
    requires |w.dc.spec.hashes| == |w.sts|
  {
    if forall k :: 0 <= k < RolloutRacks(w) ==> UpToDate(w, k) && Settled(w.sts[k]) then w' == w && r == Continue
    else
      exists k ::
        && FirstUnsettled(w, k)
        && if UpToDate(w, k) then w' == w && r == Requeue else TemplateWriteSpec(w, w', k, r)
  }

  ghost predicate TemplateWriteSpec(w: World, w': World, k: int, r: Result)
    requires 0 <= k < |w.sts| && |w.dc.spec.hashes| == |w.sts|
  {
    var goal := TemplateWritten(w, k);
    || (r == Done && w' == goal)
    || (r == Error && Fails(w) && (w' == w || w' == goal || w' == Setting(w, Updating, True)
          || w' == SetProgress(Setting(w, Updating, True), ProgressUpdating)))
  }

  // ----- Conditions at the end of a pass -----

  const ACTIONS: seq<ConditionType> := [ReplacingNodes, Updating, RollingRestart, Resuming, ScalingDown]

  predicate IsAction(k: ConditionType) {
    k == ReplacingNodes || k == Updating || k == RollingRestart || k == Resuming || k == ScalingDown
  }

  lemma ActionMembers(k: ConditionType)
    ensures k in ACTIONS <==> IsAction(k)
  {
    assert ACTIONS[0] == ReplacingNodes && ACTIONS[1] == Updating && ACTIONS[2] == RollingRestart;
    assert ACTIONS[3] == Resuming && ACTIONS[4] == ScalingDown;
  }

  function AllFalse(cs: seq<Condition>, kinds: seq<ConditionType>, now: int): seq<Condition>
    decreases |kinds|
  {
    if kinds == [] then cs else AllFalse(With(cs, kinds[0], False, now), kinds[1..], now)
  }

  function Cleared(cs: seq<Condition>, stopped: bool, now: int): seq<Condition> {
    var a := if StatusOf(cs, ScalingUp) == True then With(cs, ScalingUp, False, now) else cs;
    var b := With(a, DcStopped, if stopped then True else False, now);
    With(AllFalse(b, ACTIONS, now), DcValid, True, now)
  }

  predicate ActionsSettled(cs: seq<Condition>, stopped: bool) {
    && StatusOf(cs, ScalingUp) != True
    && StatusOf(cs, DcStopped) == (if stopped then True else False)
    && StatusOf(cs, ReplacingNodes) == StatusOf(cs, Updating) == StatusOf(cs, RollingRestart) == False
    && StatusOf(cs, Resuming) == StatusOf(cs, ScalingDown) == False
    && StatusOf(cs, DcValid) == True
  }

  ghost predicate ClearActionsSpec(w: World, w': World, r: Result) {
    if ActionsSettled(w.dc.conditions, w.dc.spec.stopped) then w' == w && r == Continue
    else
      || (r == Requeue && w' == SetConditions(w, Cleared(w.dc.conditions, w.dc.spec.stopped, w.env.now)))
      || (r == Error && Fails(w) && w' == w)
  }

  predicate ReadySettled(cs: seq<Condition>) {
    StatusOf(cs, DcInitialized) == True && (StatusOf(cs, DcStopped) == False ==> StatusOf(cs, DcReady) == True)
  }

  function MadeReady(cs: seq<Condition>, now: int): seq<Condition> {
    var a := With(cs, DcInitialized, True, now);
    if StatusOf(a, DcStopped) == False then With(a, DcReady, True, now) else a
  }

  ghost predicate InitializedSpec(w: World, w': World, r: Result) {
    if ReadySettled(w.dc.conditions) then w' == w && r == Continue
    else
      || (r == Requeue && w' == SetConditions(w, MadeReady(w.dc.conditions, w.env.now)))
      || (r == Error && Fails(w) && w' == w)
  }

  ghost predicate FinishSpec(w: World, w': World, r: Result) {
    || (r == Continue && w' == SetProgress(w, ProgressReady))
    || (r == Error && Fails(w) && (w' == w || w' == SetProgress(w, ProgressReady)))
  }
}
