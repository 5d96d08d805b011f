/** Giving a node up over runs: however many passes see the leaving pod, and whatever happens in
    between, its rack is lowered once and the pod is not started again. */
module DecommissionRuns {
  import opened Names
  import opened Model
  import opened Specs
  import opened Pass
  import opened Frames
  import opened Decommission
  import opened Fleet
  import opened Opening

  // ----- A pod followed through a run -----

  ghost predicate LeavingIn(f: State, d: nat, i: int) {
    d < |f.members| && Leaving(WorldOf(f, d, NO_ENV), i)
  }

  /** The replica count of the pod's rack. */
  function RackCount(f: State, d: nat, i: int): int
    requires d < |f.members| && 0 <= i < |f.pods|
  {
    var k := StsIndex(f.members[d].sts, f.pods[i].info.rack);
    if k >= 0 then f.members[d].sts[k].replicas else 0
  }

  /** The event is a pass over the pod's datacenter that found it done decommissioning. */
  ghost predicate FoundDone(f: State, e: Event, d: nat, i: int)
    requires 0 <= i < |f.pods|
  {
    e.PassOver? && e.d == d && IsDoneDecommissioning(f.pods[i], e.env.endpoints)
  }

  /** The rack is left alone, or lowered from the pod's own replica by a pass that found it done. */
  ghost predicate Followed(f: State, f': State, e: Event, d: nat, i: int, i': int)
    requires LeavingIn(f, d, i) && LeavingIn(f', d, i')
  {
    var n, n' := RackCount(f, d, i), RackCount(f', d, i');
    n' == n || (FoundDone(f, e, d, i) && n == f.pods[i].info.ordinal + 1 && n' == f.pods[i].info.ordinal)
  }

  // ----- One step -----

  lemma OwnPass(f: State, f': State, d: nat, env: Env, i: int)
    requires Safe(f) && Safe(f') && LeavingIn(f, d, i) && PassStep(f, f', d, env)
    ensures LeavingIn(f', d, i) && Followed(f, f', PassOver(d, env), d, i, i)
  {
    hide StepSpec, Reaches, PassSpec;
    var w0 := WorldOf(f, d, env);
    var w :| PassSpec(w0, w) && f' == After(f, d, w);
    FewerLeavers(WorldOf(f, d, NO_ENV), w0);
    SameSound(WorldOf(f, d, NO_ENV), w0);
    assert Leaving(w0, i);
    LeaverIsFollowedDown(w0, w, i);
    PassShape(w0, w);
    SameRacksSameIndex(w0.sts, w.sts, f.pods[i].info.rack);
    assert LeavingIn(f', d, i);
  }

  lemma ForeignPass(f: State, f': State, d: nat, x: nat, env: Env, i: int)
    requires Safe(f) && Safe(f') && LeavingIn(f, d, i) && PassStep(f, f', x, env) && x != d
    ensures LeavingIn(f', d, i) && RackCount(f', d, i) == RackCount(f, d, i)
  {
    hide StepSpec, Reaches, PassSpec;
    var w0 := WorldOf(f, x, env);
    var w :| PassSpec(w0, w) && f' == After(f, x, w);
    assert !InDc(w0, i);
    PassForeign(w0, w, i);
    PassShape(w0, w);
    assert LeavingIn(f', d, i);
  }

  lemma OutsideStays(f: State, f': State, d: nat, from: seq<int>, i: int, i': int)
    requires Safe(f) && Safe(f') && LeavingIn(f, d, i) && OutsideStep(f, f', from) && 0 <= i' < |from| && from[i'] == i
    ensures LeavingIn(f', d, i') && RackCount(f', d, i') == RackCount(f, d, i)
    ensures f'.pods[i'].info.ordinal == f.pods[i].info.ordinal
  {
    var a, b := f.members[d].sts, f'.members[d].sts;
    var rack := f.pods[i].info.rack;
    assert LeavingIn(f', d, i');
    assert LeavesEnd(WorldOf(f, d, NO_ENV), i);
    assert b[StsIndex(a, rack)].rack == rack;
    assert StsIndex(b, rack) == StsIndex(a, rack);
  }

  lemma StepFollowed(f: State, f': State, e: Event, d: nat, i: int, i': int)
    requires Safe(f) && LeavingIn(f, d, i) && Step(f, f', e) && Stays(e, i, i')
    ensures Safe(f') && LeavingIn(f', d, i') && Followed(f, f', e, d, i, i')
    ensures f'.pods[i'].info.ordinal == f.pods[i].info.ordinal
  {
    hide Safe, PassStep, OutsideStep, LeavingIn;
    StepKeepsSafe(f, f', e);
    InRange(f, d, i);
    match e
    case PassOver(x, env) =>
      SameOrdinal(f, f', x, env, i);
      if x == d {
        OwnPass(f, f', d, env, i);
      } else {
        ForeignPass(f, f', d, x, env, i);
      }
    case Outside(from) => OutsideStays(f, f', d, from, i, i');
  }

  lemma InRange(f: State, d: nat, i: int)
    requires LeavingIn(f, d, i)
    ensures d < |f.members| && 0 <= i < |f.pods|
  {
  }

  lemma SameOrdinal(f: State, f': State, x: nat, env: Env, i: int)
    requires PassStep(f, f', x, env) && 0 <= i < |f.pods|
    ensures |f'.pods| == |f.pods| && f'.pods[i].info.ordinal == f.pods[i].info.ordinal
  {
    hide StepSpec, Reaches, PassSpec;
    var w :| PassSpec(WorldOf(f, x, env), w) && f' == After(f, x, w);
    PassShape(WorldOf(f, x, env), w);
  }

  lemma AtOrAbove(f: State, d: nat, i: int)
    requires Safe(f) && LeavingIn(f, d, i)
    ensures f.pods[i].info.ordinal <= RackCount(f, d, i) <= f.pods[i].info.ordinal + 1
  {
    assert LeavesEnd(WorldOf(f, d, NO_ENV), i);
  }

  // ----- Runs -----

  /** How often the rack's count differed after one of the first `t` events. */
  function Changes(states: seq<State>, at: seq<int>, d: nat, t: nat): nat
    requires t < |states| == |at|
    requires forall s :: 0 <= s < |states| ==> d < |states[s].members| && 0 <= at[s] < |states[s].pods|
  {
    if t == 0 then 0
    else Changes(states, at, d, t - 1)
         + if RackCount(states[t], d, at[t]) == RackCount(states[t - 1], d, at[t - 1]) then 0 else 1
  }

  lemma {:induction false} StaysLeaving(states: seq<State>, events: seq<Event>, at: seq<int>, d: nat, t: nat)
    requires Run(states, events) && Safe(states[0]) && StaysThrough(events, at) && LeavingIn(states[0], d, at[0]) && t < |states|
    ensures Safe(states[t]) && LeavingIn(states[t], d, at[t])
    ensures states[t].pods[at[t]].info.ordinal == states[0].pods[at[0]].info.ordinal
  {
    hide Safe, Step, LeavingIn;
    InRange(states[0], d, at[0]);
    if t > 0 {
      StaysLeaving(states, events, at, d, t - 1);
      InRange(states[t - 1], d, at[t - 1]);
      StepFollowed(states[t - 1], states[t], events[t - 1], d, at[t - 1], at[t]);
    }
    InRange(states[t], d, at[t]);
  }

  /** For as long as a leaving pod exists, in every interleaving: it stays labelled as leaving, so
      it is never starting; its rack's count changes at most once, downward and never back; and it
      changes only at a pass over its datacenter that found the node done decommissioning. */
  lemma {:induction false} LoweredOnce(states: seq<State>, events: seq<Event>, at: seq<int>, d: nat, t: nat)
    requires Run(states, events) && Safe(states[0]) && StaysThrough(events, at) && LeavingIn(states[0], d, at[0]) && t < |states|
    ensures forall s :: 0 <= s < |states| ==> d < |states[s].members| && 0 <= at[s] < |states[s].pods|
    ensures forall s :: 0 <= s < |states| ==> LeavingIn(states[s], d, at[s])
    ensures Changes(states, at, d, t) <= 1
    ensures RackCount(states[t], d, at[t]) == RackCount(states[0], d, at[0]) - Changes(states, at, d, t)
    ensures t < |events| && RackCount(states[t + 1], d, at[t + 1]) != RackCount(states[t], d, at[t]) ==>
              FoundDone(states[t], events[t], d, at[t])
  {
    hide Safe, Step, Stays, LeavingIn;
    forall s | 0 <= s < |states|
      ensures LeavingIn(states[s], d, at[s]) && d < |states[s].members| && 0 <= at[s] < |states[s].pods|
    {
      StaysLeaving(states, events, at, d, s);
      InRange(states[s], d, at[s]);
    }
    StaysLeaving(states, events, at, d, t);
    AtOrAbove(states[0], d, at[0]);
    AtOrAbove(states[t], d, at[t]);
    if t > 0 {
      LoweredOnce(states, events, at, d, t - 1);
      StaysLeaving(states, events, at, d, t - 1);
      StepFollowed(states[t - 1], states[t], events[t - 1], d, at[t - 1], at[t]);
    }
    if t < |events| {
      StepFollowed(states[t], states[t + 1], events[t], d, at[t], at[t + 1]);
    }
  }

  // ----- And it is lowered -----

  /** With all calls succeeding, a pass that gets to a pod found done leaves the rack lowered. */
  lemma CleanUpSucceeds(w: World, w': World, r: Result, i: int)
    requires WellNamed(w) && OneLeaver(w) && Leaving(w, i) && w.env.apiUp
    requires IsDoneDecommissioning(w.pods[i], w.env.endpoints) && DecommissioningSpec(w, w', r)
    ensures var k := StsIndex(w.sts, w.pods[i].info.rack);
            0 <= k < |w'.sts| == |w.sts| && w'.sts[k].replicas == w.pods[i].info.ordinal
  {
    assert IsDecommissioning(w.pods[i]) && LeavesEnd(w, i);
    assert exists j :: FirstDc(w, j, IsDecommissioning) && CleanUpSpec(w, w', j, r) by {
      hide CleanUpSpec;
      var j :| FirstDc(w, j, IsDecommissioning) && if IsDoneDecommissioning(w.pods[j], w.env.endpoints) then CleanUpSpec(w, w', j, r) else w' == w && r == Requeue;
      assert Leaving(w, j) && j == i;
    }
    var j :| FirstDc(w, j, IsDecommissioning) && CleanUpSpec(w, w', j, r);
    assert Leaving(w, j);
    LoweredBySpec(w, w', r, i);
  }

  lemma LoweredBySpec(w: World, w': World, r: Result, i: int)
    requires WellNamed(w) && InDc(w, i) && LeavesEnd(w, i) && w.env.apiUp && CleanUpSpec(w, w', i, r)
    ensures var k := StsIndex(w.sts, w.pods[i].info.rack);
            0 <= k < |w'.sts| == |w.sts| && w'.sts[k].replicas == w.pods[i].info.ordinal
  {
    hide HasSuffix, WellNamed;
    LastPodOrdinal(w, i, w.sts[StsIndex(w.sts, w.pods[i].info.rack)].replicas);
  }

  lemma FollowSucceeds(c: Check, w: World, w': World, r: Result, i: int)
    requires StepSpec(c, w, w', r) && c.DecommissioningNodes?
    requires WellNamed(w) && OneLeaver(w) && Leaving(w, i) && w.env.apiUp && IsDoneDecommissioning(w.pods[i], w.env.endpoints)
    ensures var k := StsIndex(w.sts, w.pods[i].info.rack);
            0 <= k < |w'.sts| == |w.sts| && w'.sts[k].replicas == w.pods[i].info.ordinal
  {
    hide WellNamed, OneLeaver, Leaving, DecommissioningSpec, IsDoneDecommissioning;
    assert 0 <= i < |w.pods| by { InWorld(w, i); }
    CleanUpSucceeds(w, w', r, i);
  }

  lemma InWorld(w: World, i: int)
    requires Leaving(w, i)
    ensures 0 <= i < |w.pods|
  {
  }

  /** A pass over an admitted datacenter that finds the leaving node done, all calls succeeding,
      leaves its rack lowered, whether it was before or not. */
  lemma PassLowers(w0: World, w': World, i: int)
    requires WellNamed(w0) && OneLeaver(w0) && Leaving(w0, i) && IsDoneDecommissioning(w0.pods[i], w0.env.endpoints)
    requires Admitted(w0) && NoDc(w0, LacksPvc) && w0.env.apiUp && PassSpec(w0, w')
    ensures var k := StsIndex(w0.sts, w0.pods[i].info.rack);
            0 <= k < |w'.sts| == |w0.sts| && w'.sts[k].replicas == w0.pods[i].info.ordinal
  {
    hide StepSpec;
    var k, m, r := PassEnd(w0, w');
    LeaverHoldsPass(k, w0, m, i);
    ReachPhase(k, w0, m);
    if k < 5 {
      OpeningHandsOver(k, w0, m, w', r);
    } else {
      assert m.pods[i].info == w0.pods[i].info;
      FollowSucceeds(CheckAt(k), m, w', r, i);
    }
  }

  lemma {:induction false} NotListed(endpoints: seq<Endpoint>, ip: string)
    requires forall e :: e in endpoints ==> e.ip != ip
    ensures EndpointAt(endpoints, ip) == None
  {
    if endpoints != [] {
      NotListed(endpoints[1..], ip);
    }
  }

  /** So does a pass to which no node reported anything: the rack is lowered although nobody said
      that the node left. */
  lemma UnansweredLowers(w0: World, w': World, i: int)
    requires WellNamed(w0) && OneLeaver(w0) && Leaving(w0, i) && forall e :: e in w0.env.endpoints ==> e.ip != w0.pods[i].info.ip
    requires Admitted(w0) && NoDc(w0, LacksPvc) && w0.env.apiUp && PassSpec(w0, w')
    ensures var k := StsIndex(w0.sts, w0.pods[i].info.rack);
            0 <= k < |w'.sts| == |w0.sts| && w'.sts[k].replicas == w0.pods[i].info.ordinal
  {
    hide PassSpec;
    NotListed(w0.env.endpoints, w0.pods[i].info.ip);
    PassLowers(w0, w', i);
  }

  /** The event is a pass that finds the node done and can act on it. */
  ghost predicate LowersAt(f: State, e: Event, d: nat, i: int)
    requires d < |f.members| && 0 <= i < |f.pods|
  {
    FoundDone(f, e, d, i) && e.env.apiUp
    && var w := WorldOf(f, d, e.env); Admitted(w) && NoDc(w, LacksPvc)
  }

  lemma StepLowers(f: State, f': State, e: Event, d: nat, i: int)
    requires Safe(f) && LeavingIn(f, d, i) && Step(f, f', e) && LowersAt(f, e, d, i)
    ensures d < |f'.members| && |f'.pods| == |f.pods| && RackCount(f', d, i) == f.pods[i].info.ordinal
  {
    hide StepSpec, Reaches, PassSpec, Admitted, IsDoneDecommissioning;
    var w0 := WorldOf(f, d, e.env);
    var w :| PassSpec(w0, w) && f' == After(f, d, w);
    FewerLeavers(WorldOf(f, d, NO_ENV), w0);
    SameSound(WorldOf(f, d, NO_ENV), w0);
    assert Leaving(w0, i);
    PassLowers(w0, w, i);
    PassShape(w0, w);
    SameRacksSameIndex(w0.sts, w.sts, f.pods[i].info.rack);
  }

  lemma {:induction false} ChangesGrow(states: seq<State>, at: seq<int>, d: nat, s: nat, t: nat)
    requires s <= t < |states| == |at|
    requires forall u :: 0 <= u < |states| ==> d < |states[u].members| && 0 <= at[u] < |states[u].pods|
    ensures Changes(states, at, d, s) <= Changes(states, at, d, t)
  {
    if s < t {
      ChangesGrow(states, at, d, s, t - 1);
    }
  }

  /** So from a rack not yet lowered, once such a pass has been, the count has been lowered exactly
      once, and stays so for as long as the pod is there. */
  lemma LoweredExactlyOnce(states: seq<State>, events: seq<Event>, at: seq<int>, d: nat, s: nat, t: nat)
    requires Run(states, events) && Safe(states[0]) && StaysThrough(events, at) && LeavingIn(states[0], d, at[0])
    requires RackCount(states[0], d, at[0]) == states[0].pods[at[0]].info.ordinal + 1
    requires s < t < |states| && d < |states[s].members| && 0 <= at[s] < |states[s].pods| && LowersAt(states[s], events[s], d, at[s])
    ensures d < |states[t].members| && 0 <= at[t] < |states[t].pods|
    ensures RackCount(states[t], d, at[t]) == states[0].pods[at[0]].info.ordinal
    ensures forall u :: 0 <= u < |states| ==> d < |states[u].members| && 0 <= at[u] < |states[u].pods|
    ensures Changes(states, at, d, t) == 1
  {
    hide Safe, Step, Stays, LeavingIn, LowersAt;
    LoweredOnce(states, events, at, d, s + 1);
    LoweredOnce(states, events, at, d, t);
    StaysLeaving(states, events, at, d, s);
    SamePlace(events, at, s, states, d);
    StepLowers(states[s], states[s + 1], events[s], d, at[s]);
    ChangesGrow(states, at, d, s + 1, t);
  }

  lemma SamePlace(events: seq<Event>, at: seq<int>, s: nat, states: seq<State>, d: nat)
    requires StaysThrough(events, at) && s < |events| == |states| - 1
    requires d < |states[s].members| && 0 <= at[s] < |states[s].pods| && LowersAt(states[s], events[s], d, at[s])
    ensures at[s + 1] == at[s]
  {
    assert Stays(events[s], at[s], at[s + 1]);
  }
}
