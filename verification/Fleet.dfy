/** Runs of the operator: passes over all datacenters of a cluster, interleaved in any order with
    whatever Kubernetes and the users do in between. */
module Fleet {
  import opened Model
  import opened Specs
  import opened Pass
  import opened Frames
  import opened Labels
  import opened Decommission
  import opened BringUp

  datatype Member = Member(sts: seq<StsView>, dc: DcView)

  /** All pods of a cluster and its datacenters. */
  datatype State = State(pods: seq<PodView>, members: seq<Member>)

  const NO_ENV: Env := Env(false, false, false, false, 0, [], map[])

  /** What a pass over datacenter `d` sees. */
  function WorldOf(f: State, d: nat, env: Env): World
    requires d < |f.members|
  {
    World(env, f.pods, f.members[d].sts, f.members[d].dc)
  }

  /** After a pass, the pods it removed are terminating. */
  function Settle(p: PodView): PodView {
    p.(removed := false, info := p.info.(terminating := p.info.terminating || p.removed))
  }

  function After(f: State, d: nat, w: World): State
    requires d < |f.members|
  {
    State(seq(|w.pods|, i requires 0 <= i < |w.pods| => Settle(w.pods[i])), f.members[d := Member(w.sts, w.dc)])
  }

  ghost predicate Sound(f: State) {
    && (forall d :: 0 <= d < |f.members| ==> WellFormed(WorldOf(f, d, NO_ENV)) && WellNamed(WorldOf(f, d, NO_ENV)))
    && (forall d, e :: 0 <= d < e < |f.members| ==> f.members[d].dc.spec.name != f.members[e].dc.spec.name)
  }

  // ----- Steps -----

  /** A pass over one datacenter with some outside world, or anything else that happens; `from`
      tells for every pod which one it was before, or -1 for a new one. */
  datatype Event = PassOver(d: nat, env: Env) | Outside(from: seq<int>)

  /** The same pod with the same labels; what is observed about it may differ. */
  predicate SamePod(p: PodView, q: PodView) {
    && q.info.name == p.info.name && q.info.dc == p.info.dc && q.info.rack == p.info.rack
    && q.info.ordinal == p.info.ordinal && q.info.created == p.info.created
    && (p.info.terminating ==> q.info.terminating) && q == p.(info := q.info)
  }

  predicate Fresh(p: PodView) {
    p.state == ReadyToStart && !p.seed && p.failure.None? && !p.removed
  }

  ghost predicate PodsMove(a: seq<PodView>, b: seq<PodView>, from: seq<int>) {
    && |from| == |b|
    && (forall i :: 0 <= i < |b| ==> if from[i] == -1 then Fresh(b[i]) else 0 <= from[i] < |a| && SamePod(a[from[i]], b[i]))
    && (forall i, j :: 0 <= i < j < |b| && from[i] == from[j] ==> from[i] == -1)
  }

  /** Users may edit the spec and add racks, and the StatefulSet controller reports status. */
  ghost predicate UserEdits(m: Member, m': Member) {
    && m'.dc == m.dc.(spec := m'.dc.spec, replaceNodes := m'.dc.replaceNodes, restartRequested := m'.dc.restartRequested)
    && m'.dc.spec.name == m.dc.spec.name && m'.dc.spec.cluster == m.dc.spec.cluster
    && |m.sts| <= |m'.sts|
    && forall k :: 0 <= k < |m.sts| ==> m'.sts[k] == m.sts[k].(status := m'.sts[k].status)
  }

  ghost predicate OutsideStep(f: State, f': State, from: seq<int>) {
    && Sound(f') && PodsMove(f.pods, f'.pods, from) && |f'.members| == |f.members|
    && forall d :: 0 <= d < |f.members| ==> UserEdits(f.members[d], f'.members[d])
  }

  ghost predicate PassStep(f: State, f': State, d: nat, env: Env) {
    d < |f.members| && exists w :: PassSpec(WorldOf(f, d, env), w) && f' == After(f, d, w)
  }

  ghost predicate Step(f: State, f': State, e: Event) {
    match e
    case PassOver(d, env) => PassStep(f, f', d, env)
    case Outside(from) => OutsideStep(f, f', from)
  }

  /** What every reachable state satisfies. */
  ghost predicate Safe(f: State) {
    && Sound(f) && OneStarting(f.pods)
    && forall d :: 0 <= d < |f.members| ==> OneLeaver(WorldOf(f, d, NO_ENV))
  }

  // ----- The outside -----

  lemma OutsideKeepsOneStarting(a: seq<PodView>, b: seq<PodView>, from: seq<int>)
    requires PodsMove(a, b, from) && OneStarting(a)
    ensures OneStarting(b)
  {
    forall i, j | 0 <= i < j < |b| ensures !(IsStarting(b[i]) && IsStarting(b[j])) {
      if from[i] != -1 && from[j] != -1 {
        assert from[i] != from[j];
        assert !(IsStarting(a[from[i]]) && IsStarting(a[from[j]]));
      }
    }
  }

  lemma OutsideKeepsOneLeaver(w: World, w': World, from: seq<int>)
    requires PodsMove(w.pods, w'.pods, from) && OneLeaver(w)
    requires UserEdits(Member(w.sts, w.dc), Member(w'.sts, w'.dc))
    ensures OneLeaver(w')
  {
    forall i | Leaving(w', i) ensures from[i] >= 0 && Leaving(w, from[i]) && LeavesEnd(w', i) {
      var rack := w'.pods[i].info.rack;
      assert LeavesEnd(w, from[i]);
      var k := StsIndex(w.sts, rack);
      assert w'.sts[k].rack == rack;
      assert StsIndex(w'.sts, rack) == k;
    }
  }

  lemma OutsideKeepsSafe(f: State, f': State, from: seq<int>)
    requires Safe(f) && OutsideStep(f, f', from)
    ensures Safe(f')
  {
    OutsideKeepsOneStarting(f.pods, f'.pods, from);
    forall d | 0 <= d < |f'.members| ensures OneLeaver(WorldOf(f', d, NO_ENV)) {
      OutsideKeepsOneLeaver(WorldOf(f, d, NO_ENV), WorldOf(f', d, NO_ENV), from);
    }
  }

  // ----- Passes -----

  /** What a pass may do to the label of another datacenter's pod: record that it has started. */
  predicate ForeignLabel(s: NodeState, s': NodeState) {
    s' == s || (s == Starting && s' == Started)
  }

  lemma StepForeign(c: Check, w: World, w': World, r: Result, i: int)
    requires StepSpec(c, w, w', r) && 0 <= i < |w.pods| && !InDc(w, i)
    ensures |w'.pods| == |w.pods| && ForeignLabel(w.pods[i].state, w'.pods[i].state)
  {
    hide StepSpec;
    StepLabels(c, w, w', r);
    if !SameLabels(w, w') {
      var j :| Relabelled(c, w, w', r, j);
    }
  }

  lemma {:induction false} ReachForeign(k: nat, w0: World, w: World, i: int)
    requires Reaches(k, w0, w) && 0 <= i < |w0.pods| && !InDc(w0, i)
    ensures |w.pods| == |w0.pods| && ForeignLabel(w0.pods[i].state, w.pods[i].state)
  {
    hide StepSpec;
    if k > 0 {
      var m := Before(k, w0, w);
      ReachForeign(k - 1, w0, m, i);
      ReachShape(k - 1, w0, m);
      StepForeign(CheckAt(k - 1), m, w, Continue, i);
    }
  }

  lemma PassForeign(w0: World, w': World, i: int)
    requires PassSpec(w0, w') && 0 <= i < |w0.pods| && !InDc(w0, i)
    ensures |w'.pods| == |w0.pods| && ForeignLabel(w0.pods[i].state, w'.pods[i].state)
  {
    hide StepSpec;
    var k, m, r := PassEnd(w0, w');
    ReachForeign(k, w0, m, i);
    ReachShape(k, w0, m);
    if k < CHECKS {
      StepForeign(CheckAt(k), m, w', r, i);
    }
  }

  /** The same pods by name and place. */
  ghost predicate SameIdentities(a: seq<PodView>, b: seq<PodView>) {
    |b| == |a| && forall i :: 0 <= i < |a| ==>
      && b[i].info.name == a[i].info.name && b[i].info.dc == a[i].info.dc
      && b[i].info.rack == a[i].info.rack && b[i].info.ordinal == a[i].info.ordinal
  }

  lemma FewerLeavers(w: World, w': World)
    requires OneLeaver(w) && SameIdentities(w.pods, w'.pods) && w'.sts == w.sts
    requires w'.dc.spec == w.dc.spec && w'.dc.conditions == w.dc.conditions
    requires forall i :: Leaving(w', i) ==> Leaving(w, i)
    ensures OneLeaver(w')
  {
    forall i | Leaving(w', i) ensures LeavesEnd(w', i) {
      assert LeavesEnd(w, i);
    }
  }

  lemma SameSound(w: World, w': World)
    requires WellFormed(w) && WellNamed(w) && SameIdentities(w.pods, w'.pods) && w'.dc.spec == w.dc.spec
    requires |w'.sts| == |w.sts| && forall k :: 0 <= k < |w.sts| ==> w'.sts[k].rack == w.sts[k].rack
    ensures WellFormed(w') && WellNamed(w')
  {
    forall i | InDc(w', i) ensures InDc(w, i) {
    }
  }

  lemma PassKeepsSound(f: State, f': State, d: nat, env: Env, w: World)
    requires Sound(f) && d < |f.members| && PassSpec(WorldOf(f, d, env), w) && f' == After(f, d, w)
    ensures Sound(f') && SameIdentities(f.pods, f'.pods)
  {
    hide StepSpec, Reaches;
    PassShape(WorldOf(f, d, env), w);
    forall e | 0 <= e < |f'.members| ensures WellFormed(WorldOf(f', e, NO_ENV)) && WellNamed(WorldOf(f', e, NO_ENV)) {
      SameSound(WorldOf(f, e, NO_ENV), WorldOf(f', e, NO_ENV));
    }
  }

  lemma PassKeepsOwn(f: State, f': State, d: nat, env: Env, w: World)
    requires Safe(f) && d < |f.members| && PassSpec(WorldOf(f, d, env), w) && f' == After(f, d, w)
    requires SameIdentities(f.pods, f'.pods)
    ensures OneLeaver(WorldOf(f', d, NO_ENV)) && OneStarting(f'.pods)
  {
    hide StepSpec, Reaches;
    var w0 := WorldOf(f, d, env);
    FewerLeavers(WorldOf(f, d, NO_ENV), w0);
    SameSound(WorldOf(f, d, NO_ENV), w0);
    PassKeepsOneLeaver(w0, w);
    PassKeepsOneStarting(w0, w);
    PassShape(w0, w);
    FewerLeavers(w, WorldOf(f', d, NO_ENV));
  }

  lemma PassKeepsForeign(f: State, f': State, d: nat, env: Env, w: World, e: nat)
    requires Safe(f) && d < |f.members| && PassSpec(WorldOf(f, d, env), w) && f' == After(f, d, w)
    requires SameIdentities(f.pods, f'.pods) && e < |f.members| && e != d
    ensures OneLeaver(WorldOf(f', e, NO_ENV))
  {
    hide StepSpec, Reaches;
    var w0 := WorldOf(f, d, env);
    var a, b := WorldOf(f, e, NO_ENV), WorldOf(f', e, NO_ENV);
    forall i | Leaving(b, i) ensures Leaving(a, i) {
      PassForeign(w0, w, i);
    }
    FewerLeavers(a, b);
  }

  lemma PassKeepsSafe(f: State, f': State, d: nat, env: Env)
    requires Safe(f) && PassStep(f, f', d, env)
    ensures Safe(f')
  {
    hide StepSpec, Reaches, PassSpec;
    var w :| PassSpec(WorldOf(f, d, env), w) && f' == After(f, d, w);
    PassKeepsSound(f, f', d, env, w);
    PassKeepsOwn(f, f', d, env, w);
    forall e | 0 <= e < |f'.members| ensures OneLeaver(WorldOf(f', e, NO_ENV)) {
      if e != d {
        PassKeepsForeign(f, f', d, env, w, e);
      }
    }
  }

  /** Whatever happens next, the state stays safe. */
  lemma StepKeepsSafe(f: State, f': State, e: Event)
    requires Safe(f) && Step(f, f', e)
    ensures Safe(f')
  {
    hide PassStep, OutsideStep, Safe;
    match e
    case PassOver(d, env) => PassKeepsSafe(f, f', d, env);
    case Outside(from) => OutsideKeepsSafe(f, f', from);
  }

  // ----- Runs -----

  ghost predicate Run(states: seq<State>, events: seq<Event>) {
    && |states| == |events| + 1
    && forall t :: 0 <= t < |events| ==> Step(states[t], states[t + 1], events[t])
  }

  /** In every interleaving of passes over all datacenters, at most one pod of the cluster is
      starting, and at most one pod per datacenter is leaving, the last of its rack and under the
      ScalingDown condition. */
  lemma {:induction false} RunKeepsSafe(states: seq<State>, events: seq<Event>, t: nat)
    requires Run(states, events) && Safe(states[0]) && t < |states|
    ensures Safe(states[t])
  {
    hide Step, Safe;
    if t > 0 {
      RunKeepsSafe(states, events, t - 1);
      StepKeepsSafe(states[t - 1], states[t], events[t - 1]);
    }
  }

  // ----- Pods followed through a run -----

  /** The pod at `i` is the one at `i'` after the event: a pass keeps the list, and anything else
      keeps the pod. */
  predicate Stays(e: Event, i: int, i': int) {
    match e
    case PassOver(_, _) => i' == i
    case Outside(from) => 0 <= i' < |from| && from[i'] == i
  }

  /** The pod stands at `at[t]` after `t` events. */
  ghost predicate StaysThrough(events: seq<Event>, at: seq<int>) {
    && |at| == |events| + 1
    && forall t :: 0 <= t < |events| ==> Stays(events[t], at[t], at[t + 1])
  }

  // ----- Bring-up ends -----

  function NewPods(from: seq<int>): nat {
    if from == [] then 0 else NewPods(from[..|from| - 1]) + if from[|from| - 1] == -1 then 1 else 0
  }

  /** Moving pods about adds no work; every new pod adds a start and a finish. */
  lemma {:induction false} OutsideLoad(a: seq<PodView>, b: seq<PodView>, from: seq<int>)
    requires PodsMove(a, b, from)
    ensures Load(b) <= Load(a) + 2 * NewPods(from)
    decreases |b|
  {
    if b != [] {
      var n := |b| - 1;
      var j := from[n];
      if j == -1 {
        OutsideLoad(a, b[..n], from[..n]);
      } else {
        var rest := a[j := a[j].(state := Started)];
        OneRelabelled(a, rest, j);
        assert forall i :: 0 <= i < n && from[i] != -1 ==> from[i] != j;
        OutsideLoad(rest, b[..n], from[..n]);
      }
    }
  }

  /** A pass that starts a pod, or finds one to have started. */
  ghost predicate Busy(f: State, f': State, e: Event) {
    e.PassOver? && !SameStarting(f.pods, f'.pods)
  }

  ghost function BusyPasses(states: seq<State>, events: seq<Event>, n: nat): nat
    requires n <= |events| < |states|
  {
    if n == 0 then 0
    else BusyPasses(states, events, n - 1) + if Busy(states[n - 1], states[n], events[n - 1]) then 1 else 0
  }

  function PodsCreated(events: seq<Event>, n: nat): nat
    requires n <= |events|
  {
    if n == 0 then 0
    else PodsCreated(events, n - 1) + if events[n - 1].Outside? then NewPods(events[n - 1].from) else 0
  }

  lemma PassLoad(f: State, f': State, d: nat, env: Env)
    requires Safe(f) && PassStep(f, f', d, env)
    ensures Progresses(f.pods, f'.pods)
  {
    hide StepSpec, Reaches, PassSpec, Progresses;
    var w :| PassSpec(WorldOf(f, d, env), w) && f' == After(f, d, w);
    var w0 := WorldOf(f, d, env);
    FewerLeavers(WorldOf(f, d, NO_ENV), w0);
    SameSound(WorldOf(f, d, NO_ENV), w0);
    PassProgresses(w0, w);
    SettledProgress(f.pods, w.pods, f'.pods);
  }

  lemma SettledProgress(a: seq<PodView>, b: seq<PodView>, c: seq<PodView>)
    requires Progresses(a, b) && |c| == |b| && forall i :: 0 <= i < |b| ==> c[i].state == b[i].state
    ensures Progresses(a, c)
  {
    SameLoad(b, c);
  }

  lemma StepLoad(f: State, f': State, e: Event)
    requires Safe(f) && Step(f, f', e)
    ensures (if Busy(f, f', e) then 1 else 0) + Load(f'.pods)
            <= Load(f.pods) + if e.Outside? then 2 * NewPods(e.from) else 0
  {
    hide PassStep, Safe;
    match e
    case PassOver(d, env) => PassLoad(f, f', d, env);
    case Outside(from) => OutsideLoad(f.pods, f'.pods, from);
  }

  /** Over any run, starts and finishes are bounded by the work there was and the pods created:
      bring-up cannot go on for ever without new pods. */
  lemma {:induction false} BringUpEnds(states: seq<State>, events: seq<Event>, n: nat)
    requires Run(states, events) && Safe(states[0]) && n <= |events|
    ensures BusyPasses(states, events, n) + Load(states[n].pods)
            <= Load(states[0].pods) + 2 * PodsCreated(events, n)
  {
    hide Step, Safe, Busy;
    if n > 0 {
      BringUpEnds(states, events, n - 1);
      RunKeepsSafe(states, events, n - 1);
      StepLoad(states[n - 1], states[n], events[n - 1]);
    }
  }
}
