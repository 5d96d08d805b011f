/** Draining Kubernetes nodes: which pods a pass may annotate or remove when nodes carry a
    drain taint. */
module EmmSpecs {
  import opened Conditions
  import opened Model

  const TAINT_KEY := "node.vmware.com/drain"
  const EVACUATE_ALL_DATA := "drain"
  const PLANNED_DOWNTIME := "planned-downtime"
  const NO_SCHEDULE := "NoSchedule"

  const GENERIC_FAILURE := "GenericFailure"
  const NOT_ENOUGH_RESOURCES := "NotEnoughResources"
  const TOO_MANY_EXISTING_FAILURES := "TooManyExistingFailures"

  // ----- Nodes -----

  predicate HasTaint(n: KubeNode, value: string) {
    Taint(TAINT_KEY, value, NO_SCHEDULE) in n.taints
  }

  /** The nodes a datacenter cares about: where its pods run and where their volumes are. */
  ghost predicate CaresAbout(w: World, node: string) {
    node != "" && exists i :: InDc(w, i) && (w.pods[i].info.node == node || w.pods[i].info.pvcNode == node)
  }

  /** Every pod has its claim and every node the datacenter cares about exists. */
  ghost predicate NodesKnown(w: World) {
    && (forall i :: InDc(w, i) ==> w.pods[i].info.hasPvc)
    && forall n :: CaresAbout(w, n) ==> n in w.env.nodes
  }

  ghost function TaintedWith(w: World, value: string): set<string> {
    set n | n in w.env.nodes && CaresAbout(w, n) && HasTaint(w.env.nodes[n], value)
  }

  ghost function Evacuating(w: World): set<string> { TaintedWith(w, EVACUATE_ALL_DATA) }
  ghost function GoingDown(w: World): set<string> { TaintedWith(w, PLANNED_DOWNTIME) }
  ghost function Tainted(w: World): set<string> { Evacuating(w) + GoingDown(w) }

  function Agents(env: Env): set<string> {
    set n | n in env.nodes && env.nodes[n].agent
  }

  // ----- Pods -----

  ghost predicate On(w: World, i: int, nodes: set<string>) {
    InDc(w, i) && w.pods[i].info.node in nodes
  }

  ghost predicate Hosts(w: World, nodes: set<string>) {
    exists i :: On(w, i, nodes)
  }

  ghost predicate Down(w: World, i: int) {
    InDc(w, i) && !w.pods[i].info.ready && Bootstrapped(w.pods[i], w.dc.hostIds)
  }

  ghost function DownRacks(w: World): set<string> {
    set i | 0 <= i < |w.pods| && Down(w, i) :: w.pods[i].info.rack
  }

  ghost function PodNames(w: World): set<string> {
    set i | 0 <= i < |w.pods| && InDc(w, i) :: w.pods[i].info.name
  }

  ghost predicate Failed(w: World, i: int) {
    InDc(w, i) && w.pods[i].failure.Some?
  }

  /** The nodes that host no pod of the rack. */
  ghost function Outside(w: World, rack: string): set<string> {
    set n | n in Tainted(w) && forall i :: On(w, i, {n}) ==> w.pods[i].info.rack != rack
  }

  /** A down pod that cannot be scheduled because its volume sits on a node being evacuated. */
  ghost predicate Stranded(w: World, i: int) {
    && Down(w, i) && w.pods[i].info.unschedulable
    && w.pods[i].info.pvcNode != "" && w.pods[i].info.node != w.pods[i].info.pvcNode
    && w.pods[i].info.pvcNode in Evacuating(w)
  }

  // ----- Effects -----

  datatype Edit = Clean | Fail(failure: string) | Delete

  function Edited(p: PodView, e: Edit): PodView {
    match e
    case Clean => p.(failure := None)
    case Fail(f) => p.(failure := Some(f))
    case Delete => p.(removed := true)
  }

  /** The pods in `sel` are edited: all of them, or when a call failed, some of them. */
  ghost predicate EditSpec(w: World, w': World, sel: set<int>, e: Edit, r: Result) {
    && (r == Requeue || (r == Error && Fails(w)))
    && w' == w.(pods := w'.pods) && |w'.pods| == |w.pods|
    && forall i :: 0 <= i < |w.pods| ==>
         || w'.pods[i] == (if i in sel then Edited(w.pods[i], e) else w.pods[i])
         || (r == Error && w'.pods[i] == w.pods[i])
  }

  ghost predicate Stale(w: World, i: int) {
    Failed(w, i) && w.pods[i].info.node !in Tainted(w)
  }

  ghost function StalePods(w: World): set<int> {
    set i | 0 <= i < |w.pods| && Stale(w, i)
  }

  ghost function PodsOn(w: World, nodes: set<string>): set<int> {
    set i | 0 <= i < |w.pods| && On(w, i, nodes)
  }

  ghost predicate UnreadyOn(w: World, i: int, nodes: set<string>) {
    On(w, i, nodes) && !w.pods[i].info.ready
  }

  ghost function UnreadyPodsOn(w: World, nodes: set<string>): set<int> {
    set i | 0 <= i < |w.pods| && UnreadyOn(w, i, nodes)
  }

  ghost function StrandedPods(w: World): set<int> {
    set i | 0 <= i < |w.pods| && Stranded(w, i)
  }

  /** Stranded pods are removed, each after its name was put on the list of nodes to replace. */
  ghost predicate ReplaceSpec(w: World, w': World, r: Result) {
    && EditSpec(w, w'.(dc := w.dc), StrandedPods(w), Delete, r)
    && w'.dc == w.dc.(replaceNodes := w'.dc.replaceNodes)
    && w.dc.replaceNodes <= w'.dc.replaceNodes
    && (forall n :: n in w'.dc.replaceNodes[|w.dc.replaceNodes|..] ==> exists i :: Stranded(w, i) && w.pods[i].info.name == n)
    && (forall i :: 0 <= i < |w.pods| && w'.pods[i] != w.pods[i] ==> w.pods[i].info.name in w'.dc.replaceNodes)
    && (r == Requeue ==> forall i :: Stranded(w, i) ==> w.pods[i].info.name in w'.dc.replaceNodes)
  }

  // ----- The decision procedure -----

  ghost predicate TooFewNodes(w: World) {
    |PodNames(w)| > |Agents(w.env) - Tainted(w)|
  }

  /** The guards in their order. Each one that acts ends the pass. */
  ghost predicate GuardsSpec(w: World, w': World, r: Result) {
    if exists i :: Stale(w, i) then EditSpec(w, w', StalePods(w), Clean, r)
    else if exists i :: Failed(w, i) then w' == w && r == Requeue
    else if Condition_(w, DcInitialized) != True then w' == w && r == Continue
    else FailGuardsSpec(w, w', r)
  }

  ghost predicate FailGuardsSpec(w: World, w': World, r: Result) {
    if TooFewNodes(w) && Hosts(w, Tainted(w)) then EditSpec(w, w', PodsOn(w, Tainted(w)), Fail(NOT_ENOUGH_RESOURCES), r)
    else if Condition_(w, DcStopped) == True && Hosts(w, Evacuating(w)) then EditSpec(w, w', PodsOn(w, Evacuating(w)), Fail(GENERIC_FAILURE), r)
    else DownGuardsSpec(w, w', r)
  }

  ghost predicate DownGuardsSpec(w: World, w': World, r: Result) {
    if |DownRacks(w)| > 1 && Hosts(w, Tainted(w)) then EditSpec(w, w', PodsOn(w, Tainted(w)), Fail(TOO_MANY_EXISTING_FAILURES), r)
    else exists rack :: IsDownRack(w, rack) && RackGuardsSpec(w, w', rack, r)
  }

  /** Some rack that is down, or the empty name when none is. */
  ghost predicate IsDownRack(w: World, rack: string) {
    if DownRacks(w) == {} then rack == "" else rack in DownRacks(w)
  }

  ghost predicate RackGuardsSpec(w: World, w': World, downRack: string, r: Result) {
    if downRack != "" && Hosts(w, Outside(w, downRack)) then
      EditSpec(w, w', PodsOn(w, Outside(w, downRack)), Fail(TOO_MANY_EXISTING_FAILURES), r)
    else if exists i :: UnreadyOn(w, i, Tainted(w)) then EditSpec(w, w', UnreadyPodsOn(w, Tainted(w)), Delete, r)
    else CarryOutSpec(w, w', downRack, r)
  }

  /** With no unready pod left on a tainted node: wait for the down rack, or remove a next victim. */
  ghost predicate CarryOutSpec(w: World, w': World, downRack: string, r: Result) {
    if downRack != "" then
      if exists i :: Stranded(w, i) then ReplaceSpec(w, w', r) else w' == w && r == Continue
    else if Hosts(w, Evacuating(w)) then
      exists k :: On(w, k, Evacuating(w)) && EditSpec(w, w', {k}, Delete, r)
    else if Hosts(w, GoingDown(w)) then
      || (exists n :: n in GoingDown(w) && Hosts(w, {n}) && EditSpec(w, w', PodsOn(w, {n}), Delete, r))
      || (Fails(w) && w' == w && r == Continue)  // a failed node query is not reported here
    else w' == w && r == Continue
  }

  ghost predicate EmmSpec(w: World, w': World, r: Result) {
    || (!w.env.pspEnabled && w' == w && r == Continue)
    || (w.env.pspEnabled && r == Error && w' == w && (Fails(w) || !NodesKnown(w)))
    || (w.env.pspEnabled && NodesKnown(w) && GuardsSpec(w, w', r))
  }
}
