/** The cluster as one reconcile pass sees it: pods with their labels, the datacenter's
    StatefulSets, its spec and status, and the answers the outside world gives. */
module Model {
  import opened Conditions
  import opened Racks
  import opened Names
  import opened Lists

  datatype Option<+T> = None | Some(value: T)

  /** The node-state label of a pod. */
  datatype NodeState =
    | Unlabelled | ReadyToStart | Starting | Started | StartedNotReady | Decommissioning

  /** What is fixed about a pod for the length of a pass. Missing labels and unset names
      read as the empty string, as Go map lookups do. */
  datatype PodInfo = PodInfo(
    name: string, dc: string, rack: string, ordinal: nat,
    node: string, ip: string, created: int,
    ready: bool,             // the cassandra container is ready
    mgmtUp: bool,            // its management API has been up for ten seconds
    terminatedLong: bool,    // it terminated more than ten minutes ago
    unreadyLong: bool,       // readiness was lost more than ten minutes ago
    pending: bool, hasPvc: bool, pvcNode: string, unschedulable: bool,
    terminating: bool)       // an earlier pass or somebody else asked for its deletion

  /** A pod together with what a pass may write: labels, the drain-failure annotation, and
      whether this pass asked for the pod's deletion. */
  datatype PodView = PodView(
    info: PodInfo, state: NodeState, seed: bool, failure: Option<string>, removed: bool)

  datatype StsStatus = StsStatus(
    generation: int, observedGeneration: int,
    replicas: int, readyReplicas: int, currentReplicas: int, updatedReplicas: int)

  datatype StsView = StsView(rack: string, status: StsStatus, replicas: int, hash: int)

  datatype Progress = NoProgress | ProgressUpdating | ProgressReady

  /** The part of the datacenter spec that only the user edits. */
  datatype Spec = Spec(
    cluster: string, name: string, racks: seq<string>, size: int, stopped: bool,
    additionalSeeds: nat, canary: bool, hashes: seq<int>)

  datatype DcView = DcView(
    spec: Spec,
    replaceNodes: seq<string>, restartRequested: bool,
    conditions: seq<Condition>, hostIds: map<string, string>, replacements: seq<string>,
    lastRestart: int, progress: Progress)

  datatype Endpoint = Endpoint(ip: string, hostId: string, status: string)

  datatype Taint = Taint(key: string, value: string, effect: string)

  datatype KubeNode = KubeNode(taints: seq<Taint>, agent: bool)

  /** The outside world during a pass. With `apiUp`, every call to the API server and to the
      management API succeeds; without it, any call may fail. */
  datatype Env = Env(
    apiUp: bool, healthy: bool, canAbsorb: bool, pspEnabled: bool, now: int,
    endpoints: seq<Endpoint>, nodes: map<string, KubeNode>)

  datatype World = World(env: Env, pods: seq<PodView>, sts: seq<StsView>, dc: DcView)

  datatype Result = Continue | Requeue | Done | Error

  // ----- Pods -----

  predicate IsReady(p: PodView) { p.info.ready }
  predicate IsStarting(p: PodView) { p.state == Starting }
  predicate IsStarted(p: PodView) { p.state == Started || p.state == StartedNotReady }
  predicate IsDecommissioning(p: PodView) { p.state == Decommissioning }
  predicate LostReadiness(p: PodView) { p.state == Started && !p.info.ready }
  predicate RegainedReadiness(p: PodView) { p.state == StartedNotReady && p.info.ready }
  predicate ReadinessChanged(p: PodView) { LostReadiness(p) || RegainedReadiness(p) }
  predicate LacksPvc(p: PodView) { p.info.pending && !p.info.hasPvc }
  predicate Startable(p: PodView) { p.state == ReadyToStart && p.info.mgmtUp }
  predicate NeedsStart(p: PodView) { p.info.mgmtUp && !p.info.ready && !IsStarted(p) }
  predicate MgmtDown(p: PodView) { !p.info.mgmtUp }

  predicate IsStuck(p: PodView) {
    || (!p.info.ready && p.state != ReadyToStart && p.info.terminatedLong)
    || (p.state == StartedNotReady && p.info.unreadyLong)
  }

  predicate MatchesLast(p: PodView, rack: string, replicas: int) {
    p.info.rack == rack && HasSuffix(p.info.name, LastPodSuffix(replicas))
  }

  // ----- Looking at a world -----

  /** What Kubernetes and the operator's own naming guarantee: pod names are unique, racks have
      distinct non-empty names, and there is one StatefulSet per rack, in rack order. */
  ghost predicate WellFormed(w: World) {
    && (forall i, j :: 0 <= i < j < |w.pods| ==> w.pods[i].info.name != w.pods[j].info.name)
    && w.dc.spec.racks != [] && NoDuplicates(w.dc.spec.racks) && "" !in w.dc.spec.racks
    && |w.sts| == |w.dc.spec.racks| == |w.dc.spec.hashes|
    && forall k :: 0 <= k < |w.sts| ==> w.sts[k].rack == w.dc.spec.racks[k]
  }

  ghost predicate InDc(w: World, i: int) {
    0 <= i < |w.pods| && w.pods[i].info.dc == w.dc.spec.name
  }

  ghost predicate NoDc(w: World, p: PodView -> bool) {
    forall i :: InDc(w, i) ==> !p(w.pods[i])
  }

  ghost predicate FirstDc(w: World, i: int, p: PodView -> bool) {
    && InDc(w, i) && p(w.pods[i])
    && forall j :: 0 <= j < i && InDc(w, j) ==> !p(w.pods[j])
  }

  /** How many pods of the datacenter satisfy `p`. */
  function CountIn(pods: seq<PodView>, dc: string, p: PodView -> bool): nat {
    if pods == [] then 0
    else
      var last := pods[|pods| - 1];
      CountIn(pods[..|pods| - 1], dc, p) + if last.info.dc == dc && p(last) then 1 else 0
  }

  function CountDc(w: World, p: PodView -> bool): nat {
    CountIn(w.pods, w.dc.spec.name, p)
  }

  ghost function Replicas(w: World): seq<int> {
    seq(|w.sts|, k requires 0 <= k < |w.sts| => w.sts[k].replicas)
  }

  function Wanted(spec: Spec): int { DesiredNodes(spec.size, spec.stopped) }

  function SeedsInRack(spec: Spec, k: int): int
    requires spec.racks != []
  {
    Share(SeedTotal(Wanted(spec), |spec.racks|), |spec.racks|, k)
  }

  ghost predicate Fails(w: World) { !w.env.apiUp }

  function HostId(hostIds: map<string, string>, name: string): string {
    if name in hostIds then hostIds[name] else ""
  }

  /** A node that the ring may know: it has a host ID, or its pod was taken past Ready-to-Start. */
  predicate Bootstrapped(p: PodView, hostIds: map<string, string>) {
    HostId(hostIds, p.info.name) != "" || (p.state != Unlabelled && p.state != ReadyToStart)
  }

  // ----- Endpoint metadata -----

  function EndpointAt(endpoints: seq<Endpoint>, ip: string): Option<Endpoint> {
    if endpoints == [] then None
    else if endpoints[0].ip == ip then Some(endpoints[0])
    else EndpointAt(endpoints[1..], ip)
  }

  /** The node reports that it left, or it is not listed: where nobody answered, every node counts
      as done. */
  predicate IsDoneDecommissioning(p: PodView, endpoints: seq<Endpoint>) {
    match EndpointAt(endpoints, p.info.ip)
    case None => true
    case Some(e) => "LEFT" <= e.status
  }

  predicate HasStartedDecommissioning(p: PodView, endpoints: seq<Endpoint>) {
    match EndpointAt(endpoints, p.info.ip)
    case None => false
    case Some(e) => "LEAVING" <= e.status
  }

  // ----- Changing a world -----

  function SetPod(w: World, i: int, p: PodView): World
    requires 0 <= i < |w.pods|
  {
    w.(pods := w.pods[i := p])
  }

  function SetState(w: World, i: int, s: NodeState): World
    requires 0 <= i < |w.pods|
  {
    SetPod(w, i, w.pods[i].(state := s))
  }

  function SetSeed(w: World, i: int, b: bool): World
    requires 0 <= i < |w.pods|
  {
    SetPod(w, i, w.pods[i].(seed := b))
  }

  function RemovePod(w: World, i: int): World
    requires 0 <= i < |w.pods|
  {
    SetPod(w, i, w.pods[i].(removed := true))
  }

  function SetSts(w: World, k: int, s: StsView): World
    requires 0 <= k < |w.sts|
  {
    w.(sts := w.sts[k := s])
  }

  function SetReplicas(w: World, k: int, n: int): World
    requires 0 <= k < |w.sts|
  {
    SetSts(w, k, w.sts[k].(replicas := n))
  }

  function SetConditions(w: World, cs: seq<Condition>): World {
    w.(dc := w.dc.(conditions := cs))
  }

  function SetProgress(w: World, p: Progress): World {
    w.(dc := w.dc.(progress := p))
  }

  function Condition_(w: World, k: ConditionType): ConditionStatus {
    StatusOf(w.dc.conditions, k)
  }

  function Setting(w: World, k: ConditionType, s: ConditionStatus): World {
    SetConditions(w, With(w.dc.conditions, k, s, w.env.now))
  }
}
