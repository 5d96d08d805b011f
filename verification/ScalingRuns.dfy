/** Scaling over runs: while a running datacenter's size and racks stand, passes over it, passes
    over others and everything in between bring its replica counts to the balanced split. */
module ScalingRuns {
  import opened Racks
  import opened Model
  import opened Specs
  import opened Pass
  import opened Frames
  import opened Decommission
  import opened Resizing
  import opened Fleet

  ghost function Counts(f: State, d: nat): seq<int>
    requires d < |f.members|
  {
    Replicas(WorldOf(f, d, NO_ENV))
  }

  /** Datacenter `d` runs, with this size and these racks. */
  ghost predicate Wants(f: State, d: nat, size: int, racks: seq<string>) {
    && d < |f.members| && !f.members[d].dc.spec.stopped
    && f.members[d].dc.spec.size == size && f.members[d].dc.spec.racks == racks
  }

  /** One slip is owed if a rack is still to be lowered without warrant. */
  ghost function Owed(f: State, d: nat): nat
    requires d < |f.members| && f.members[d].sts != []
  {
    if Warranted(WorldOf(f, d, NO_ENV)) then 0 else 1
  }

  ghost predicate Scaling(f: State, d: nat, size: int, racks: seq<string>) {
    Safe(f) && Wants(f, d, size, racks) && f.members[d].sts != []
  }

  /** What one step does to the counts of the datacenter. */
  ghost predicate Scales(f: State, f': State, d: nat, size: int)
    requires d < |f.members| && d < |f'.members| && f.members[d].sts != [] && f'.members[d].sts != []
  {
    && Counts(f, d) != [] && Owed(f', d) <= Owed(f, d)
    && (|| Moves(Counts(f, d), Counts(f', d), size, false)
        || (Owed(f', d) < Owed(f, d) && Slips(Counts(f, d), Counts(f', d))))
  }

  // ----- One step -----

  /** Whether lowering is warranted depends on who leaves, the counts and the size. */
  lemma SameWarrant(w: World, w': World)
    requires w.sts != [] && |w'.sts| == |w.sts| && w'.dc.spec.size == w.dc.spec.size
    requires forall k :: 0 <= k < |w.sts| ==> w'.sts[k].rack == w.sts[k].rack && w'.sts[k].replicas == w.sts[k].replicas
    requires forall i :: Leaving(w', i) ==>
               exists j :: Leaving(w, j) && w.pods[j].info.rack == w'.pods[i].info.rack
                           && w.pods[j].info.ordinal == w'.pods[i].info.ordinal
    ensures Replicas(w') == Replicas(w) && (Warranted(w) ==> Warranted(w'))
  {
    assert Replicas(w') == Replicas(w);
    if Warranted(w) {
      forall i, k | Leaving(w', i) && StsIndex(w'.sts, w'.pods[i].info.rack) == k && k >= 0
                    && w'.sts[k].replicas == w'.pods[i].info.ordinal + 1
        ensures FirstExcess(Replicas(w'), k) && w'.dc.spec.size < Sum(Replicas(w'))
      {
        var j :| Leaving(w, j) && w.pods[j].info.rack == w'.pods[i].info.rack && w.pods[j].info.ordinal == w'.pods[i].info.ordinal;
        SameRacksSameIndex(w.sts, w'.sts, w.pods[j].info.rack);
      }
    }
  }

  lemma StandsStill(a: seq<int>, size: int)
    requires a != []
    ensures Moves(a, a, size, false)
  {
    RaisedNone(a, size);
    RaisedIsMove(a, a, size, false, false, 0);
  }

  lemma PassScales(w0: World, w: World)
    requires WellFormed(w0) && WellNamed(w0) && OneLeaver(w0) && !w0.dc.spec.stopped && PassSpec(w0, w)
    ensures w.sts != [] && (Warranted(w0) ==> Warranted(w))
    ensures || Moves(Replicas(w0), Replicas(w), w0.dc.spec.size, false)
            || (!Warranted(w0) && Warranted(w) && Slips(Replicas(w0), Replicas(w)))
  {
    hide StepSpec, Reaches, PassSpec, Moves, Warranted, Slips;
    PassMoves(w0, w);
    if Moves(Replicas(w0), Replicas(w), w0.dc.spec.size, w0.env.apiUp) {
      AnyCalls(Replicas(w0), Replicas(w), w0.dc.spec.size, w0.env.apiUp);
    }
    if Warranted(w0) {
      PassKeepsWarranted(w0, w);
    }
  }

  lemma AnyCalls(a: seq<int>, b: seq<int>, size: int, apiUp: bool)
    requires a != [] && Moves(a, b, size, apiUp)
    ensures Moves(a, b, size, false)
  {
    if n :| RaisedBy(a, b, size, apiUp, n) {
      RaisedIsMove(a, b, size, apiUp, false, n);
    }
  }

  lemma OwnPassScales(f: State, f': State, d: nat, env: Env, size: int, racks: seq<string>)
    requires Scaling(f, d, size, racks) && PassStep(f, f', d, env)
    ensures d < |f'.members| && f'.members[d].sts != [] && Scales(f, f', d, size)
  {
    hide StepSpec, Reaches, PassSpec, Moves, Warranted, Slips;
    var a, w0 := WorldOf(f, d, NO_ENV), WorldOf(f, d, env);
    var w :| PassSpec(w0, w) && f' == After(f, d, w);
    FewerLeavers(a, w0);
    SameSound(a, w0);
    SameWarrant(a, w0);
    SameWarrant(w0, a);
    PassScales(w0, w);
    PassShape(w0, w);
    SameWarrant(w, WorldOf(f', d, NO_ENV));
  }

  lemma ForeignPassScales(f: State, f': State, d: nat, x: nat, env: Env, size: int, racks: seq<string>)
    requires Scaling(f, d, size, racks) && PassStep(f, f', x, env) && x != d
    ensures d < |f'.members| && f'.members[d] == f.members[d]
    ensures Owed(f', d) <= Owed(f, d) && Counts(f', d) == Counts(f, d)
  {
    hide StepSpec, Reaches, PassSpec, Warranted;
    var w0 := WorldOf(f, x, env);
    var w :| PassSpec(w0, w) && f' == After(f, x, w);
    PassShape(w0, w);
    var a, b := WorldOf(f, d, NO_ENV), WorldOf(f', d, NO_ENV);
    forall i | Leaving(b, i) ensures Leaving(a, i) {
      PassForeign(w0, w, i);
    }
    SameWarrant(a, b);
  }

  lemma OutsideScales(f: State, f': State, d: nat, from: seq<int>, size: int, racks: seq<string>)
    requires Scaling(f, d, size, racks) && OutsideStep(f, f', from) && Wants(f', d, size, racks)
    ensures f'.members[d].sts != [] && Owed(f', d) <= Owed(f, d) && Counts(f', d) == Counts(f, d)
  {
    hide Warranted;
    var a, b := WorldOf(f, d, NO_ENV), WorldOf(f', d, NO_ENV);
    assert WellFormed(a) && WellFormed(b);
    forall i | Leaving(b, i)
      ensures Leaving(a, from[i]) && a.pods[from[i]].info.rack == b.pods[i].info.rack
              && a.pods[from[i]].info.ordinal == b.pods[i].info.ordinal
    {
    }
    SameWarrant(a, b);
  }

  lemma StepScales(f: State, f': State, e: Event, d: nat, size: int, racks: seq<string>)
    requires Scaling(f, d, size, racks) && Step(f, f', e) && Wants(f', d, size, racks)
    ensures Scaling(f', d, size, racks) && Scales(f, f', d, size)
  {
    hide Safe, PassStep, OutsideStep, Moves, Warranted, Slips;
    StepKeepsSafe(f, f', e);
    assert |Counts(f, d)| == |f.members[d].sts|;
    StandsStill(Counts(f, d), size);
    match e
    case PassOver(x, env) =>
      if x == d {
        OwnPassScales(f, f', d, env, size, racks);
      } else {
        ForeignPassScales(f, f', d, x, env, size, racks);
      }
    case Outside(from) => OutsideScales(f, f', d, from, size, racks);
  }

  // ----- Runs -----

  ghost predicate Throughout(states: seq<State>, d: nat, size: int, racks: seq<string>) {
    forall s :: 0 <= s < |states| ==> d < |states[s].members| && Wants(states[s], d, size, racks)
  }

  lemma {:induction false} RunScales(states: seq<State>, events: seq<Event>, d: nat, size: int, racks: seq<string>, t: nat)
    requires Run(states, events) && Safe(states[0]) && t < |states| && Throughout(states, d, size, racks)
    ensures Scaling(states[t], d, size, racks)
  {
    hide Step, Scales;
    if t > 0 {
      RunScales(states, events, d, size, racks, t - 1);
      StepScales(states[t - 1], states[t], events[t - 1], d, size, racks);
    } else {
      assert WellFormed(WorldOf(states[0], d, NO_ENV));
    }
  }

  /** The replica counts along a run. */
  ghost function History(states: seq<State>, d: nat): (h: seq<seq<int>>)
    requires forall s :: 0 <= s < |states| ==> d < |states[s].members|
    ensures |h| == |states| && forall s :: 0 <= s < |states| ==> h[s] == Counts(states[s], d)
  {
    seq(|states|, s requires 0 <= s < |states| => Counts(states[s], d))
  }

  /** The slips owed along a run. */
  ghost function Debts(states: seq<State>, d: nat): (h: seq<nat>)
    requires forall s :: 0 <= s < |states| ==> d < |states[s].members| && states[s].members[d].sts != []
    ensures |h| == |states| && forall s :: 0 <= s < |states| ==> h[s] == Owed(states[s], d)
  {
    seq(|states|, s requires 0 <= s < |states| => Owed(states[s], d))
  }

  lemma HistoryMoves(states: seq<State>, events: seq<Event>, d: nat, size: int, racks: seq<string>)
    requires Run(states, events) && Safe(states[0]) && Throughout(states, d, size, racks)
    ensures forall s :: 0 <= s < |states| ==> d < |states[s].members| && states[s].members[d].sts != []
    ensures Moving(History(states, d), Debts(states, d), size)
  {
    hide Step, Safe, Wants, Moves, Slips, Owed, Scales;
    forall s | 0 <= s < |states| ensures d < |states[s].members| && states[s].members[d].sts != [] {
      RunScales(states, events, d, size, racks, s);
    }
    var h, owed := History(states, d), Debts(states, d);
    forall t | 0 <= t < |h| - 1
      ensures h[t] != [] && owed[t + 1] <= owed[t]
              && (Moves(h[t], h[t + 1], size, false) || (owed[t + 1] < owed[t] && Slips(h[t], h[t + 1])))
    {
      RunScales(states, events, d, size, racks, t);
      StepScales(states[t], states[t + 1], events[t], d, size, racks);
      ScalesMeans(states[t], states[t + 1], d, size);
    }
    assert |Counts(states[0], d)| == |states[0].members[d].sts|;
  }

  lemma ScalesMeans(f: State, f': State, d: nat, size: int)
    requires d < |f.members| && d < |f'.members| && f.members[d].sts != [] && f'.members[d].sts != [] && Scales(f, f', d, size)
    ensures Counts(f, d) != [] && Owed(f', d) <= Owed(f, d)
    ensures || Moves(Counts(f, d), Counts(f', d), size, false)
            || (Owed(f', d) < Owed(f, d) && Slips(Counts(f, d), Counts(f', d)))
  {
  }

  /** In every interleaving, from any safe state, while the datacenter runs with its size and racks
      unchanged: its counts change at most as often as they are away from the split; a rack at its
      share or above stays there; and counts with no rack below its share and no node too many are
      the split. If at the start a rack is still to be lowered for a leaving pod without warrant, it
      may once be lowered all the same: two more changes, and one node below the share. */
  lemma ScalingConverges(states: seq<State>, events: seq<Event>, d: nat, size: nat, racks: seq<string>, t: nat)
    requires Run(states, events) && Safe(states[0]) && t < |states| && Throughout(states, d, size, racks)
    ensures forall s :: 0 <= s < |states| ==> d < |states[s].members| && states[s].members[d].sts != []
    ensures var h, n, owed := History(states, d), |Counts(states[0], d)|, Owed(states[0], d);
            && n > 0 && |h[t]| == n && Owed(states[t], d) <= owed
            && Changes(h, t) + Distance(h[t], Split(size, n)) + 2 * Owed(states[t], d)
               <= Distance(h[0], Split(size, n)) + 2 * owed
            && HoldsShares(h[0], h[t], size, owed - Owed(states[t], d))
            && (AboveShare(h[t], size) && Sum(h[t]) <= size ==> h[t] == Split(size, n))
  {
    hide Step, Safe, Wants, Moves, Slips, Distance, HoldsShares, Owed;
    HistoryMoves(states, events, d, size, racks);
    ScalingEnds(History(states, d), Debts(states, d), size, t);
  }
}
