/** Failed drains over runs: while an annotated pod stays on its tainted node, no pass over its
    datacenter starts, relabels or drains anything, whatever happens in between. */
module DrainRuns {
  import opened Model
  import opened EmmSpecs
  import opened Pass
  import opened Frames
  import opened Draining
  import opened FailedDrains
  import opened Fleet
  import opened Rolling

  // ----- Other datacenters' passes -----

  lemma DrainsForeign(w: World, w': World, r: Result, i: int)
    requires EmmSpec(w, w', r) && 0 <= i < |w.pods| && !InDc(w, i)
    ensures |w'.pods| == |w.pods| && w'.pods[i].failure == w.pods[i].failure
  {
    hide EmmSpec, PastGuards, NoneUnready, Hosts, TaintedWith;
    var a := EmmActs(w, w', r);
  }

  lemma StepForeignFailure(c: Check, w: World, w': World, r: Result, i: int)
    requires StepSpec(c, w, w', r) && 0 <= i < |w.pods| && !InDc(w, i)
    ensures |w'.pods| == |w.pods| && w'.pods[i].failure == w.pods[i].failure
  {
    if c.Drains? {
      DrainsForeign(w, w', r, i);
    } else {
      StepKeeps(c, w, w', r);
    }
  }

  lemma {:induction false} ReachForeignFailure(k: nat, w0: World, w: World, i: int)
    requires Reaches(k, w0, w) && 0 <= i < |w0.pods| && !InDc(w0, i)
    ensures |w.pods| == |w0.pods| && w.pods[i].failure == w0.pods[i].failure
  {
    hide StepSpec;
    if k > 0 {
      var m := Before(k, w0, w);
      ReachForeignFailure(k - 1, w0, m, i);
      ReachShape(k - 1, w0, m);
      StepForeignFailure(CheckAt(k - 1), m, w, Continue, i);
    }
  }

  lemma PassForeignFailure(w0: World, w': World, i: int)
    requires PassSpec(w0, w') && 0 <= i < |w0.pods| && !InDc(w0, i)
    ensures |w'.pods| == |w0.pods| && w'.pods[i].failure == w0.pods[i].failure
  {
    hide StepSpec;
    var k, m, r := PassEnd(w0, w');
    ReachForeignFailure(k, w0, m, i);
    ReachShape(k, w0, m);
    if k < CHECKS {
      StepForeignFailure(CheckAt(k), m, w', r, i);
    }
  }

  // ----- Runs -----

  /** Pod `i` belongs to datacenter `d` and carries a failure annotation. */
  ghost predicate Annotated(f: State, d: nat, i: int) {
    d < |f.members| && 0 <= i < |f.pods| && f.pods[i].info.dc == f.members[d].dc.spec.name && f.pods[i].failure.Some?
  }

  /** The annotated pod stays, as pod `i'`, and every pass over its datacenter finds its node
      tainted. */
  ghost predicate StaysTainted(f: State, e: Event, d: nat, i: int, i': int) {
    && Stays(e, i, i')
    && (e.PassOver? && e.d == d && d < |f.members| && 0 <= i < |f.pods| ==>
          e.env.pspEnabled && f.pods[i].info.node in Tainted(WorldOf(f, d, e.env)))
  }

  /** No label moves, and of the datacenter's pods only those without a volume are made to go. */
  ghost predicate NothingDone(f: State, f': State, d: nat)
    requires d < |f.members|
  {
    && |f'.pods| == |f.pods|
    && (forall j :: 0 <= j < |f.pods| ==> f'.pods[j].state == f.pods[j].state)
    && (forall j :: 0 <= j < |f.pods| && f.pods[j].info.dc == f.members[d].dc.spec.name ==>
          f'.pods[j].info.terminating && !Going(f.pods[j]) ==> LacksPvc(f.pods[j]))
  }

  lemma OwnPassWaits(f: State, f': State, d: nat, env: Env, i: int)
    requires Annotated(f, d, i) && PassStep(f, f', d, env)
    requires env.pspEnabled && f.pods[i].info.node in Tainted(WorldOf(f, d, env))
    ensures Annotated(f', d, i) && NothingDone(f, f', d)
  {
    hide StepSpec, Reaches, PassSpec;
    var w0 := WorldOf(f, d, env);
    var w :| PassSpec(w0, w) && f' == After(f, d, w);
    assert Failed(w0, i);
    FailedDrainHoldsPass(w0, w, i);
    PassShape(w0, w);
    forall j | 0 <= j < |f.pods| && f.pods[j].info.dc == f.members[d].dc.spec.name
               && f'.pods[j].info.terminating && !Going(f.pods[j])
      ensures LacksPvc(f.pods[j])
    {
      assert NewlyRemoved(w0, w, j);
    }
  }

  lemma ForeignPassKeeps(f: State, f': State, d: nat, x: nat, env: Env, i: int)
    requires Sound(f) && Annotated(f, d, i) && PassStep(f, f', x, env) && x != d
    ensures Annotated(f', d, i)
  {
    hide StepSpec, Reaches, PassSpec;
    var w0 := WorldOf(f, x, env);
    var w :| PassSpec(w0, w) && f' == After(f, x, w);
    assert !InDc(w0, i);
    PassForeignFailure(w0, w, i);
    PassShape(w0, w);
  }

  lemma OutsideKeepsAnnotated(f: State, f': State, d: nat, from: seq<int>, i: int, i': int)
    requires Annotated(f, d, i) && OutsideStep(f, f', from) && 0 <= i' < |from| && from[i'] == i
    ensures Annotated(f', d, i')
  {
  }

  lemma StepKeepsAnnotated(f: State, f': State, e: Event, d: nat, i: int, i': int)
    requires Sound(f) && Annotated(f, d, i) && Step(f, f', e) && StaysTainted(f, e, d, i, i')
    ensures Annotated(f', d, i') && (e.PassOver? && e.d == d ==> NothingDone(f, f', d))
  {
    hide PassStep, OutsideStep, Sound, Annotated, NothingDone;
    match e
    case PassOver(x, env) =>
      if x == d {
        InRange(f, d, i);
        OwnPassWaits(f, f', d, env, i);
      } else {
        ForeignPassKeeps(f, f', d, x, env, i);
      }
    case Outside(from) => OutsideKeepsAnnotated(f, f', d, from, i, i');
  }

  lemma InRange(f: State, d: nat, i: int)
    requires Annotated(f, d, i)
    ensures d < |f.members| && 0 <= i < |f.pods|
  {
  }

  /** From the moment a pod is annotated, for as long as it stays on a tainted node, the
      annotation stays and no pass over the datacenter does anything. */
  lemma {:induction false} FailedDrainNeverCarriedOut(states: seq<State>, events: seq<Event>, at: seq<int>, d: nat, t: nat)
    requires Run(states, events) && Safe(states[0]) && |at| == |states| && t < |states|
    requires Annotated(states[0], d, at[0])
    requires forall s :: 0 <= s < |events| ==> StaysTainted(states[s], events[s], d, at[s], at[s + 1])
    ensures Annotated(states[t], d, at[t])
    ensures t < |events| && events[t].PassOver? && events[t].d == d ==> NothingDone(states[t], states[t + 1], d)
  {
    hide Step, Annotated, NothingDone, StaysTainted;
    if t > 0 {
      FailedDrainNeverCarriedOut(states, events, at, d, t - 1);
      RunKeepsSafe(states, events, t - 1);
      StepKeepsAnnotated(states[t - 1], states[t], events[t - 1], d, at[t - 1], at[t]);
    }
    if t < |events| {
      RunKeepsSafe(states, events, t);
      StepKeepsAnnotated(states[t], states[t + 1], events[t], d, at[t], at[t + 1]);
    }
    InRange(states[t], d, at[t]);
  }
}
