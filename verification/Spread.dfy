/** How far apart a pass may drive the racks: not at all if its calls succeed, and exactly as far as
    the scale-up cut short at some rack does if they do not. */
module Spread {
  import opened Conditions
  import opened Racks
  import opened Names
  import opened Model
  import opened Specs
  import opened Pass
  import opened Frames
  import opened Decommission
  import opened BringUp
  import opened Resizing
  import opened Opening
  import opened Approach
  import opened Lowering
  import Scaling

  /** Cutting the scale-up short at any rack keeps the racks within `d` of each other. */
  ghost predicate CutsWithin(a: seq<int>, size: int, d: int)
    requires a != []
  {
    forall n :: 0 <= n <= |a| ==> SpreadWithin(RaisedUpTo(a, size, n), d)
  }

  /** Lowering a rack for a leaving pod, if that may come next, does. */
  ghost predicate LoweringWithin(w: World, d: int) {
    forall i :: MayLower(w, i) ==> SpreadWithin(LoweredCounts(w, i), d)
  }

  /** A datacenter that is not stopped; a lowering still to come need not be warranted any more. */
  ghost predicate Running(w: World) {
    WellFormed(w) && WellNamed(w) && OneLeaver(w) && !w.dc.spec.stopped
  }

  /** While nobody leaves, what a pass does to the counts is cut short only at the scale check. */
  lemma RaisesUnlessCut(w0: World, w': World)
    requires Running(w0) && (forall i :: !Leaving(w0, i)) && PassSpec(w0, w')
    ensures Moves(Replicas(w0), Replicas(w'), w0.dc.spec.size, w0.env.apiUp || !MayScale(w0))
    ensures w' == w0 || w0.dc.spec.size > 0
  {
    hide StepSpec, Moves;
    var k, m, r := PassEnd(w0, w');
    if k == 0 {
      FirstChecks(k, m, w', r);
    } else {
      ReachOrderPhase(k, w0, m);
      ReachShape(k, w0, m);
    }
    var n := MovedAt(k, w0, m, w', r);
    RaisedIsMove(Replicas(w0), Replicas(w'), w0.dc.spec.size, w0.env.apiUp || k != 8, w0.env.apiUp || !MayScale(w0), n);
  }

  lemma SpreadKept(w0: World, w': World, d: int)
    requires Running(w0) && 1 <= d && SpreadWithin(Replicas(w0), d) && LoweringWithin(w0, d)
    requires w0.env.apiUp || !MayScale(w0) || CutsWithin(Replicas(w0), w0.dc.spec.size, d)
    requires PassSpec(w0, w')
    ensures SpreadWithin(Replicas(w'), d)
  {
    hide StepSpec, Reaches, PassSpec, Moves, SpreadWithin, MayLower, LoweredCounts, OneLeaver, WellNamed, MayScale;
    if i :| Leaving(w0, i) {
      LoweredOnlyIf(w0, w', i);
    } else {
      RaisesUnlessCut(w0, w');
      if w' != w0 {
        MovesKeepSpread(Replicas(w0), Replicas(w'), w0.dc.spec.size, w0.env.apiUp || !MayScale(w0), d);
      }
    }
  }

  // ----- A scale-up cut short -----

  /** The first `n` racks grown, and then a write failed. */
  function CutAt(w: World, desired: seq<int>, n: nat): World
    requires n <= |w.sts| == |desired|
  {
    var c := GrowCount(w.sts, desired, n);
    Moved(w, Resized(w.sts, GrowTargets(w.sts, desired), n), GrowConditions(w.dc.conditions, c, w.env.now),
          if c == 0 then w.dc.progress else ProgressUpdating)
  }

  lemma CutIsAllowed(w: World, desired: seq<int>, n: nat)
    requires n <= |w.sts| == |desired| && Fails(w)
    ensures ScaleSpec(w, CutAt(w, desired, n), Error, desired)
  {
    hide GrowConditions;
    var w' := CutAt(w, desired, n);
    Scaling.GrowCountMonotone(w.sts, desired, n, |w.sts|);
    assert UpTo(w.sts, w'.sts, AllGrown(w, desired).sts, n);
  }

  lemma CutStep(c: Check, w: World, n: nat)
    requires WellFormed(w) && c.RackScale? && n <= |w.sts| && Fails(w) && !w.dc.spec.stopped
    ensures var w' := CutAt(w, Split(w.dc.spec.size, |w.dc.spec.racks|), n);
            StepSpec(c, w, w', Error) && Replicas(w') == RaisedUpTo(Replicas(w), w.dc.spec.size, n)
  {
    hide ScaleSpec, CutShort, GrowConditions;
    var desired := Split(w.dc.spec.size, |w.dc.spec.racks|);
    CutIsAllowed(w, desired, n);
    assert Replicas(CutAt(w, desired, n)) == RaisedUpTo(Replicas(w), w.dc.spec.size, n);
  }

  /** A pass that gets to the scale check may be cut short after any rack. */
  lemma CutPass(w0: World, n: nat) returns (w': World)
    requires WellFormed(w0) && !w0.dc.spec.stopped && Fails(w0) && MayScale(w0) && n <= |w0.sts|
    ensures PassSpec(w0, w') && Replicas(w') == RaisedUpTo(Replicas(w0), w0.dc.spec.size, n)
  {
    hide StepSpec, Reaches;
    var k := 8;
    var m :| Reaches(k, w0, m);
    ReachShape(k, w0, m);
    ReachMidway(k, w0, m, Replicas(w0));
    w' := CutAt(m, Split(m.dc.spec.size, |m.dc.spec.racks|), n);
    CutStep(CheckAt(k), m, n);
    assert EndsAt(k, w0, w', Error);
  }

  // ----- Exactly when the racks stay close -----

  /** From racks within `d` of each other, every pass over a running datacenter leaves them so, if
      and only if lowering a rack for a leaving pod does, where that may come next, and the calls
      succeed, or the pass cannot come to scaling racks, or the scale-up cut short at any rack keeps
      them so. */
  lemma SpreadExact(w0: World, d: int)
    requires Running(w0) && 1 <= d && SpreadWithin(Replicas(w0), d)
    ensures (forall w' :: PassSpec(w0, w') ==> SpreadWithin(Replicas(w'), d))
            <==> && LoweringWithin(w0, d)
                 && (w0.env.apiUp || !MayScale(w0) || CutsWithin(Replicas(w0), w0.dc.spec.size, d))
  {
    hide StepSpec, Reaches, PassSpec, MayScale, SpreadWithin, OneLeaver, WellNamed, LoweredCounts, IsDoneDecommissioning;
    if !LoweringWithin(w0, d) {
      var i :| MayLower(w0, i) && !SpreadWithin(LoweredCounts(w0, i), d);
      var w' := LowersPass(w0, i);
    } else if w0.env.apiUp || !MayScale(w0) || CutsWithin(Replicas(w0), w0.dc.spec.size, d) {
      forall w' | PassSpec(w0, w') ensures SpreadWithin(Replicas(w'), d) {
        SpreadKept(w0, w', d);
      }
    } else {
      var n :| 0 <= n <= |Replicas(w0)| && !SpreadWithin(RaisedUpTo(Replicas(w0), w0.dc.spec.size, n), d);
      var w' := CutPass(w0, n);
      assert !SpreadWithin(Replicas(w'), d);
    }
  }

  /** A lowering that is warranted is within. */
  lemma WarrantedIsWithin(w: World, d: int)
    requires Running(w) && Warranted(w) && 1 <= d && SpreadWithin(Replicas(w), d)
    ensures LoweringWithin(w, d)
  {
    hide SpreadWithin, StsIndex;
    forall i | MayLower(w, i) ensures SpreadWithin(LoweredCounts(w, i), d) {
      ShrinkKeepsSpread(Replicas(w), RackOf(w, i), d);
    }
  }

  // ----- As a condition on the counts alone -----

  /** Taking one node from any rack that has one keeps the racks within `d` of each other. */
  ghost predicate LossesWithin(a: seq<int>, d: int) {
    forall k :: 0 <= k < |a| && a[k] >= 1 ==> SpreadWithin(a[k := a[k] - 1], d)
  }

  /** Racks with these replica counts, no pod but perhaps one that leaves, while calls may fail. */
  function NewRacks(a: seq<int>, size: int, pods: seq<PodView>, cs: seq<Condition>): World {
    var racks := seq(|a|, k requires 0 <= k < |a| => RackName(k));
    World(Env(false, true, true, false, 0, [], map[]), pods,
          seq(|a|, k requires 0 <= k < |a| => StsView(racks[k], StsStatus(1, 1, 0, 0, 0, 0), a[k], 0)),
          DcView(Spec("c", "dc", racks, size, false, 0, false, seq(|a|, _ => 0)), [], false, cs, map[], [], 0, NoProgress))
  }

  function RackName(k: nat): string { seq(k + 1, _ => 'r') }

  lemma NewRacksFormed(a: seq<int>, size: int, pods: seq<PodView>, cs: seq<Condition>)
    requires a != [] && |pods| <= 1
    ensures var w := NewRacks(a, size, pods, cs);
            WellFormed(w) && Replicas(w) == a && w.dc.spec.size == size && !w.dc.spec.stopped && Fails(w)
  {
    var w := NewRacks(a, size, pods, cs);
    forall i, j | 0 <= i < j < |a| ensures w.dc.spec.racks[i] != w.dc.spec.racks[j] {
      assert |w.dc.spec.racks[i]| == i + 1;
    }
    assert "" !in w.dc.spec.racks;
  }

  lemma NewRacksScale(a: seq<int>, size: int)
    requires a != [] && |a| <= size
    ensures Running(NewRacks(a, size, [], [])) && MayScale(NewRacks(a, size, [], []))
  {
    hide MayScale, WayToScale;
    var w := NewRacks(a, size, [], []);
    NewRacksFormed(a, size, [], []);
    WayWithoutDrains(w);
    MayScaleExact(w);
  }

  function Leaver(k: nat, ordinal: nat): PodView {
    PodView(PodInfo(StsPodName(StsName("c", "dc", RackName(k)), ordinal), "dc", RackName(k), ordinal, "n", "10.0.0.1", 0,
                    true, true, false, false, false, true, "n", false, false), Decommissioning, false, None, false)
  }

  lemma LeaverLowers(a: seq<int>, size: int, k: int)
    requires |a| <= size && 0 <= k < |a| && a[k] >= 1
    ensures var w := NewRacks(a, size, [Leaver(k, a[k] - 1)], [Condition(ScalingDown, True, 0)]);
            Running(w) && MayLower(w, 0) && LoweredCounts(w, 0) == a[k := a[k] - 1]
  {
    hide Digits, RackName;
    var p, cs := Leaver(k, a[k] - 1), [Condition(ScalingDown, True, 0)];
    var w := NewRacks(a, size, [p], cs);
    NewRacksFormed(a, size, [p], cs);
    assert w.sts[k].rack == p.info.rack;
    assert StsIndex(w.sts, p.info.rack) == k by {
      var j := StsIndex(w.sts, p.info.rack);
      assert w.dc.spec.racks[j] == w.dc.spec.racks[k];
    }
    assert Leaving(w, 0) && LeavesEnd(w, 0);
    assert Condition_(w, ScalingDown) == True;
  }

  /** A pass over a running datacenter with these replica counts and this size. */
  ghost predicate PassFrom(a: seq<int>, size: int, w0: World, w': World) {
    Running(w0) && Replicas(w0) == a && w0.dc.spec.size == size && PassSpec(w0, w')
  }

  /** The counts and the size decide alone: all passes over datacenters with them keep the racks
      within `d`, if and only if there is no node for every rack, or both the scale-up cut short at
      any rack and the loss of a node from any rack keep them so. */
  lemma SpreadExactInCounts(a: seq<int>, size: int, d: int)
    requires a != [] && 1 <= d && SpreadWithin(a, d)
    ensures (forall w0, w' :: PassFrom(a, size, w0, w') ==> SpreadWithin(Replicas(w'), d))
            <==> size < |a| || (CutsWithin(a, size, d) && LossesWithin(a, d))
  {
    hide StepSpec, Reaches, PassSpec, MayScale, SpreadWithin, CutsWithin, NewRacks, LoweringWithin, Running;
    if size < |a| || (CutsWithin(a, size, d) && LossesWithin(a, d)) {
      forall w0, w' | PassFrom(a, size, w0, w') ensures SpreadWithin(Replicas(w'), d) {
        WithinByCounts(w0, a, d);
        SpreadKept(w0, w', d);
      }
    } else if !CutsWithin(a, size, d) {
      var w0 := NewRacks(a, size, [], []);
      NewRacksFormed(a, size, [], []);
      NewRacksScale(a, size);
      SpreadBreaks(w0, d);
    } else {
      var k :| 0 <= k < |a| && a[k] >= 1 && !SpreadWithin(a[k := a[k] - 1], d);
      var w0 := NewRacks(a, size, [Leaver(k, a[k] - 1)], [Condition(ScalingDown, True, 0)]);
      NewRacksFormed(a, size, [Leaver(k, a[k] - 1)], [Condition(ScalingDown, True, 0)]);
      LeaverLowers(a, size, k);
      NotWithin(w0, 0, d);
      SpreadBreaks(w0, d);
    }
  }

  lemma NotWithin(w: World, i: int, d: int)
    requires MayLower(w, i) && !SpreadWithin(LoweredCounts(w, i), d)
    ensures !LoweringWithin(w, d)
  {
  }

  lemma SpreadBreaks(w0: World, d: int)
    requires Running(w0) && 1 <= d && SpreadWithin(Replicas(w0), d)
    requires !LoweringWithin(w0, d) || (Fails(w0) && MayScale(w0) && !CutsWithin(Replicas(w0), w0.dc.spec.size, d))
    ensures exists w' :: PassFrom(Replicas(w0), w0.dc.spec.size, w0, w') && !SpreadWithin(Replicas(w'), d)
  {
    hide StepSpec, Reaches, PassSpec, MayScale, SpreadWithin, OneLeaver, WellNamed, LoweringWithin;
    SpreadExact(w0, d);
    var w' :| PassSpec(w0, w') && !SpreadWithin(Replicas(w'), d);
    assert PassFrom(Replicas(w0), w0.dc.spec.size, w0, w');
  }

  lemma WithinByCounts(w: World, a: seq<int>, d: int)
    requires Running(w) && Replicas(w) == a && (w.dc.spec.size < |a| || LossesWithin(a, d))
    ensures LoweringWithin(w, d) && (w.dc.spec.size < |a| ==> !MayScale(w))
  {
    hide SpreadWithin, StepSpec, Reaches, StsIndex, WellNamed, OneLeaver, IsDoneDecommissioning;
    if w.dc.spec.size < |a| {
      MayScaleExact(w);
    }
  }

  /** Two racks without a node, ten nodes wanted, and a write failing after the first rack: five
      apart, although they were level. */
  lemma ExampleCut() returns (w': World)
    ensures PassFrom([0, 0], 10, NewRacks([0, 0], 10, [], []), w') && SpreadWithin([0, 0], 1)
    ensures Replicas(w') == [5, 0] && !SpreadWithin(Replicas(w'), 1)
  {
    hide StepSpec, Reaches, PassSpec, MayScale, Running, NewRacks;
    var w := NewRacks([0, 0], 10, [], []);
    NewRacksFormed([0, 0], 10, [], []);
    NewRacksScale([0, 0], 10);
    w' := CutPass(w, 1);
    assert Share(10, 2, 0) == 5;
    assert RaisedUpTo([0, 0], 10, 1) == [5, 0];
    assert Replicas(w')[0] == 5 && Replicas(w')[1] == 0;
  }
}
