/** Rolling restarts over runs: every pod older than the restart is made to go at most once, and a
    pass gets past the restart check only when none of them is left. */
module RestartRuns {
  import opened Conditions
  import opened Model
  import opened Specs
  import opened EmmSpecs
  import opened Pass
  import opened Frames
  import opened Draining
  import opened Rolling
  import opened Quiescence
  import opened Fleet

  // ----- One pass -----

  lemma DrainsDelete(w: World, w': World, r: Result, i: int)
    requires EmmSpec(w, w', r) && 0 <= i < |w.pods| && w.pods[i].removed
    ensures |w'.pods| == |w.pods| && w'.pods[i].removed
  {
    hide EmmSpec, PastGuards, NoneUnready, Hosts, TaintedWith;
    var a := EmmActs(w, w', r);
  }

  /** A deletion is not taken back. */
  lemma StepDeletes(c: Check, w: World, w': World, r: Result, i: int)
    requires StepSpec(c, w, w', r) && 0 <= i < |w.pods| && w.pods[i].removed
    ensures |w'.pods| == |w.pods| && w'.pods[i].removed
  {
    hide EmmSpec, MissingPvcSpec, StuckSpec, RollingRestartSpec;
    if c.Drains? {
      DrainsDelete(w, w', r, i);
    } else if Removes(c) && !(c.StuckNodes? && w.dc.spec.stopped) {
      DeletesOne(c, w, w', r);
    } else {
      StepKeeps(c, w, w', r);
    }
  }

  lemma DeletesOne(c: Check, w: World, w': World, r: Result)
    requires match c case MissingPvc => MissingPvcSpec(w, w', r) case StuckNodes => StuckSpec(w, w', r)
                     case RestartPods => RollingRestartSpec(w, w', r) case _ => false
    ensures |w'.pods| == |w.pods| && forall i :: 0 <= i < |w.pods| && w.pods[i].removed ==> w'.pods[i].removed
  {
  }

  lemma PassDeletes(w0: World, w': World, i: int)
    requires PassSpec(w0, w') && 0 <= i < |w0.pods| && w0.pods[i].removed
    ensures |w'.pods| == |w0.pods| && w'.pods[i].removed
  {
    hide StepSpec;
    var k, m, r := PassEnd(w0, w');
    ReachRemovesNone(k, w0, m);
    if k < CHECKS {
      StepDeletes(CheckAt(k), m, w', r, i);
    }
  }

  lemma StepCutoff(c: Check, w: World, w': World, r: Result)
    requires StepSpec(c, w, w', r) && !w.dc.restartRequested
    ensures w'.dc.lastRestart == w.dc.lastRestart && !w'.dc.restartRequested
  {
    StepKeeps(c, w, w', r);
  }

  lemma {:induction false} ReachCutoff(k: nat, w0: World, w: World)
    requires Reaches(k, w0, w) && !w0.dc.restartRequested
    ensures w.dc.lastRestart == w0.dc.lastRestart && !w.dc.restartRequested
  {
    hide StepSpec;
    if k > 0 {
      var m := Before(k, w0, w);
      ReachCutoff(k - 1, w0, m);
      StepCutoff(CheckAt(k - 1), m, w, Continue);
    }
  }

  lemma PassCutoff(w0: World, w': World)
    requires PassSpec(w0, w') && !w0.dc.restartRequested
    ensures w'.dc.lastRestart == w0.dc.lastRestart && !w'.dc.restartRequested
  {
    hide StepSpec;
    var k, m, r := PassEnd(w0, w');
    ReachCutoff(k, w0, m);
    if k < CHECKS {
      StepCutoff(CheckAt(k), m, w', r);
    }
  }

  lemma RestartHandsOver(c: Check, w: World, w': World)
    requires c.RestartPods? && StepSpec(c, w, w', Continue)
    ensures AllRestarted(w')
  {
    hide RollingRestartSpec;
    RestartStep(w, w', Continue);
  }

  /** Behind the restart check no pod is older than the restart: the restart is over. */
  lemma {:induction false} PastRestart(k: nat, w0: World, w: World)
    requires k > 20 && Reaches(k, w0, w) && !w0.dc.restartRequested
    ensures AllRestarted(w0)
  {
    hide StepSpec;
    var m := Before(k, w0, w);
    if k == 21 {
      ReachCutoff(k, w0, w);
      ReachShape(k, w0, w);
      RestartHandsOver(CheckAt(k - 1), m, w);
      assert forall i :: InDc(w0, i) ==> InDc(w, i);
    } else {
      PastRestart(k - 1, w0, m);
    }
  }

  /** While an old pod is left, no pass comes to the checks behind the restart, let alone to Ready. */
  lemma RestartComesFirst(w0: World, w': World, i: int)
    requires PassSpec(w0, w') && !w0.dc.restartRequested && InDc(w0, i) && w0.pods[i].info.created < w0.dc.lastRestart
    ensures !RunsThrough(w0, w') && exists k, r :: k <= 20 && EndsAt(k, w0, w', r)
  {
    hide StepSpec, Reaches;
    assert !AllRestarted(w0);
    if RunsThrough(w0, w') {
      PastRestart(CHECKS, w0, w');
    }
    var k, r :| EndsAt(k, w0, w', r);
    var m :| Reaches(k, w0, m) && StepSpec(CheckAt(k), m, w', r);
    if k > 20 {
      PastRestart(k, w0, m);
    }
  }

  // ----- Old pods -----

  /** How many old pods are on their way out in `b` but were not in `a`. */
  function Went(a: seq<PodView>, b: seq<PodView>, dc: string, cutoff: int): nat
    requires |a| == |b|
  {
    if a == [] then 0
    else
      var n := |a| - 1;
      Went(a[..n], b[..n], dc, cutoff) + if IsOld(a[n], dc, cutoff) && !Going(a[n]) && Going(b[n]) then 1 else 0
  }

  /** The same pods, and who is on the way out stays so. */
  ghost predicate GoesOn(a: seq<PodView>, b: seq<PodView>) {
    && |b| == |a|
    && forall i :: 0 <= i < |a| ==>
         && b[i].info.dc == a[i].info.dc && b[i].info.created == a[i].info.created
         && (Going(a[i]) ==> Going(b[i]))
  }

  lemma {:induction false} WentFromOld(a: seq<PodView>, b: seq<PodView>, dc: string, cutoff: int)
    requires GoesOn(a, b)
    ensures Went(a, b, dc, cutoff) + OldPods(b, dc, cutoff) == OldPods(a, dc, cutoff)
  {
    if a != [] {
      WentFromOld(a[..|a| - 1], b[..|b| - 1], dc, cutoff);
    }
  }

  lemma {:induction false} OldPodsWithout(a: seq<PodView>, j: int, dc: string, cutoff: int)
    requires 0 <= j < |a|
    ensures OldPods(a[j := a[j].(removed := true)], dc, cutoff)
            == OldPods(a, dc, cutoff) - if IsOld(a[j], dc, cutoff) && !Going(a[j]) then 1 else 0
  {
    var b := a[j := a[j].(removed := true)];
    var n := |a| - 1;
    if j == n {
      assert b[..n] == a[..n];
    } else {
      OldPodsWithout(a[..n], j, dc, cutoff);
      assert b[..n] == a[..n][j := a[j].(removed := true)];
    }
  }

  /** Moving pods about makes none of them old again. */
  lemma {:induction false} OutsideOld(a: seq<PodView>, b: seq<PodView>, from: seq<int>, dc: string, cutoff: int)
    requires PodsMove(a, b, from) && forall i :: 0 <= i < |b| && from[i] == -1 ==> !IsOld(b[i], dc, cutoff)
    ensures OldPods(b, dc, cutoff) <= OldPods(a, dc, cutoff)
    decreases |b|
  {
    if b != [] {
      var n := |b| - 1;
      var j := from[n];
      if j == -1 {
        OutsideOld(a, b[..n], from[..n], dc, cutoff);
      } else {
        var rest := a[j := a[j].(removed := true)];
        OldPodsWithout(a, j, dc, cutoff);
        assert forall i :: 0 <= i < n && from[i] != -1 ==> from[i] != j;
        OutsideOld(rest, b[..n], from[..n], dc, cutoff);
      }
    }
  }

  lemma PassGoesOn(f: State, f': State, x: nat, env: Env)
    requires PassStep(f, f', x, env)
    ensures GoesOn(f.pods, f'.pods)
  {
    hide StepSpec, Reaches, PassSpec;
    var w0 := WorldOf(f, x, env);
    var w :| PassSpec(w0, w) && f' == After(f, x, w);
    PassShape(w0, w);
    forall i | 0 <= i < |f.pods| && f.pods[i].removed ensures w.pods[i].removed {
      PassDeletes(w0, w, i);
    }
  }

  // ----- One step -----

  /** Nobody asks for another restart of datacenter `d`, and its new pods are not old. */
  ghost predicate NoNewRestart(f: State, f': State, e: Event, d: nat, cutoff: int) {
    && d < |f.members| && !f.members[d].dc.restartRequested
    && (e.Outside? ==> forall i :: 0 <= i < |f'.pods| && i < |e.from| && e.from[i] == -1 ==>
          !IsOld(f'.pods[i], f.members[d].dc.spec.name, cutoff))
  }

  /** How many old pods a pass makes go. */
  ghost function Restarts(f: State, f': State, e: Event, dc: string, cutoff: int): nat {
    if e.PassOver? && |f.pods| == |f'.pods| then Went(f.pods, f'.pods, dc, cutoff) else 0
  }

  lemma SameMember(f: State, f': State, x: nat, env: Env, d: nat)
    requires PassStep(f, f', x, env) && d < |f.members| && !f.members[d].dc.restartRequested
    ensures |f'.members| == |f.members| && f'.members[d].dc.spec == f.members[d].dc.spec
    ensures f'.members[d].dc.lastRestart == f.members[d].dc.lastRestart
  {
    hide StepSpec, Reaches, PassSpec;
    var w :| PassSpec(WorldOf(f, x, env), w) && f' == After(f, x, w);
    PassShape(WorldOf(f, x, env), w);
    if x == d {
      PassCutoff(WorldOf(f, x, env), w);
    }
  }

  lemma StepRestarts(f: State, f': State, e: Event, d: nat, cutoff: int)
    requires Step(f, f', e) && NoNewRestart(f, f', e, d, cutoff)
    ensures |f'.members| == |f.members| && f'.members[d].dc.spec.name == f.members[d].dc.spec.name
    ensures f'.members[d].dc.lastRestart == f.members[d].dc.lastRestart
    ensures var dc := f.members[d].dc.spec.name;
            Restarts(f, f', e, dc, cutoff) + OldPods(f'.pods, dc, cutoff) <= OldPods(f.pods, dc, cutoff)
  {
    hide PassStep, Sound;
    var dc := f.members[d].dc.spec.name;
    match e
    case PassOver(x, env) =>
      SameMember(f, f', x, env, d);
      PassGoesOn(f, f', x, env);
      WentFromOld(f.pods, f'.pods, dc, cutoff);
    case Outside(from) =>
      assert UserEdits(f.members[d], f'.members[d]);
      OutsideOld(f.pods, f'.pods, from, dc, cutoff);
  }

  // ----- Runs -----

  /** The restart asked for at `cutoff` is the last one asked for throughout. */
  ghost predicate OneRestart(states: seq<State>, events: seq<Event>, d: nat, cutoff: int) {
    && |states| == |events| + 1
    && d < |states[0].members| && states[0].members[d].dc.lastRestart == cutoff
    && forall t :: 0 <= t < |events| ==> NoNewRestart(states[t], states[t + 1], events[t], d, cutoff)
  }

  /** How many old pods the passes among the first `n` events made go. */
  ghost function RestartsIn(states: seq<State>, events: seq<Event>, dc: string, cutoff: int, n: nat): nat
    requires n <= |events| < |states|
  {
    if n == 0 then 0
    else RestartsIn(states, events, dc, cutoff, n - 1) + Restarts(states[n - 1], states[n], events[n - 1], dc, cutoff)
  }

  /** In every interleaving, the old pods that passes make go are at most the old pods there were,
      so the restart cannot go on for ever. */
  lemma {:induction false} RestartEnds(states: seq<State>, events: seq<Event>, d: nat, cutoff: int, n: nat)
    requires Run(states, events) && OneRestart(states, events, d, cutoff) && n <= |events|
    ensures d < |states[n].members| && states[n].members[d].dc.spec.name == states[0].members[d].dc.spec.name
    ensures states[n].members[d].dc.lastRestart == cutoff
    ensures var dc := states[0].members[d].dc.spec.name;
            RestartsIn(states, events, dc, cutoff, n) + OldPods(states[n].pods, dc, cutoff)
            <= OldPods(states[0].pods, dc, cutoff)
  {
    hide Step, Restarts, OldPods;
    if n > 0 {
      RestartEnds(states, events, d, cutoff, n - 1);
      StepRestarts(states[n - 1], states[n], events[n - 1], d, cutoff);
    }
  }

  // ----- No pod twice -----

  lemma StaysGoing(f: State, f': State, e: Event, i: int, i': int)
    requires Step(f, f', e) && Stays(e, i, i') && 0 <= i < |f.pods|
    ensures 0 <= i' < |f'.pods| && (Going(f.pods[i]) ==> Going(f'.pods[i']))
    ensures f'.pods[i'].info.dc == f.pods[i].info.dc && f'.pods[i'].info.created == f.pods[i].info.created
  {
    hide PassStep, Sound;
    match e
    case PassOver(x, env) => PassGoesOn(f, f', x, env);
    case Outside(from) => assert SamePod(f.pods[i], f'.pods[i']);
  }

  /** A pod on its way out stays so for as long as it is there, and as old as it was. */
  lemma {:induction false} GoesOnce(states: seq<State>, events: seq<Event>, at: seq<int>, s: nat, t: nat)
    requires Run(states, events) && StaysThrough(events, at) && s <= t < |states| && 0 <= at[s] < |states[s].pods|
    ensures 0 <= at[t] < |states[t].pods|
    ensures Going(states[s].pods[at[s]]) ==> Going(states[t].pods[at[t]])
    ensures states[t].pods[at[t]].info.dc == states[s].pods[at[s]].info.dc
    ensures states[t].pods[at[t]].info.created == states[s].pods[at[s]].info.created
    decreases t
  {
    hide Step, Stays, Going;
    if s < t {
      GoesOnce(states, events, at, s, t - 1);
      StaysGoing(states[t - 1], states[t], events[t - 1], at[t - 1], at[t]);
    }
  }

  /** Event `t` is a pass that makes the followed pod go. */
  ghost predicate MadeToGo(states: seq<State>, events: seq<Event>, at: seq<int>, t: nat)
    requires t < |events| && |states| == |at| == |events| + 1
    requires 0 <= at[t] < |states[t].pods| && 0 <= at[t + 1] < |states[t + 1].pods|
  {
    events[t].PassOver? && !Going(states[t].pods[at[t]]) && Going(states[t + 1].pods[at[t + 1]])
  }

  lemma NeverTwice(states: seq<State>, events: seq<Event>, at: seq<int>, s: nat, t: nat)
    requires Run(states, events) && StaysThrough(events, at) && s < t < |events| && 0 <= at[0] < |states[0].pods|
    ensures 0 <= at[s] < |states[s].pods| && 0 <= at[s + 1] < |states[s + 1].pods|
    ensures 0 <= at[t] < |states[t].pods| && 0 <= at[t + 1] < |states[t + 1].pods|
    ensures !(MadeToGo(states, events, at, s) && MadeToGo(states, events, at, t))
  {
    hide Step, Stays, Going;
    GoesOnce(states, events, at, 0, s);
    GoesOnce(states, events, at, s, s + 1);
    GoesOnce(states, events, at, s + 1, t);
    GoesOnce(states, events, at, t, t + 1);
  }

  /** When a pass gets past the restart check, every pod that was old when the restart was asked
      for has been replaced: none of them is still there. */
  lemma OldPodsReplaced(states: seq<State>, events: seq<Event>, at: seq<int>, d: nat, cutoff: int, t: nat, k: nat, m: World)
    requires Run(states, events) && OneRestart(states, events, d, cutoff) && StaysThrough(events, at)
    requires 0 <= at[0] < |states[0].pods| && IsOld(states[0].pods[at[0]], states[0].members[d].dc.spec.name, cutoff)
    requires t < |events| && events[t].PassOver? && events[t].d == d && k > 20
    ensures d < |states[t].members| && !Reaches(k, WorldOf(states[t], d, events[t].env), m)
  {
    hide Step, Stays, Going, Reaches;
    RestartEnds(states, events, d, cutoff, t);
    GoesOnce(states, events, at, 0, t);
    var w := WorldOf(states[t], d, events[t].env);
    assert NoNewRestart(states[t], states[t + 1], events[t], d, cutoff);
    assert InDc(w, at[t]) && w.pods[at[t]].info.created < w.dc.lastRestart;
    if Reaches(k, w, m) {
      PastRestart(k, w, m);
    }
  }

  // ----- A deletion repeated -----

  lemma RestartsAt(c: Check, w: World, i: int)
    requires WellFormed(w) && c.RestartPods? && !w.dc.restartRequested && FirstOld(w, i)
    ensures StepSpec(c, w, RemovePod(w, i), Done)
  {
  }

  /** The restart check does not look whether a pod is on its way out already: a pass over an
      otherwise settled datacenter deletes the first old pod, and the next pass deletes it again
      for as long as it is there. */
  lemma DeletesAgain(w: World, i: int)
    requires Calm(w) && FirstOld(w, i)
    ensures PassSpec(w, RemovePod(w, i))
  {
    hide StepSpec, Reaches, Calm;
    CalmShape(w);
    PassesAll(20, w);
    RestartsAt(CheckAt(20), w, i);
    assert EndsAt(20, w, RemovePod(w, i), Done);
  }

  /** One settled node, already on its way out, with a restart asked for after it was created. */
  lemma ExampleDeletedAgain(cs: seq<Condition>)
    requires ActionsSettled(cs, false) && ReadySettled(cs)
    ensures var w := Quiescence.Example(cs, true, 1); Going(w.pods[0]) && PassSpec(w, RemovePod(w, 0))
  {
    hide PassSpec, Calm, ActionsSettled, ReadySettled;
    ExampleQuiet(cs, true, 1);
    DeletesAgain(Quiescence.Example(cs, true, 1), 0);
  }

  lemma CalmShape(w: World)
    requires Calm(w)
    ensures WellFormed(w) && !w.dc.restartRequested
  {
  }
}
